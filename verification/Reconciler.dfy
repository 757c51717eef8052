/** The reconciler's read-modify-write of a pool's Deployment against everyone else
    who writes the same object: KEDA sets the replica count, the deployment
    controller the status, and anybody may create, edit or delete it. The reconciler
    reads from an informer's cache, which may lag behind the API server; it writes to
    the API server itself. */
module Reconciler {
  import opened Simulations

  /** The fields the reconciler owns. */
  datatype Desired = Desired(labels: string, selector: string, template: string)

  datatype Deployment = Deployment(version: nat, replicas: int, status: string, spec: Desired)

  /** What the API server stores; `revision` numbers its writes. */
  datatype Store = Store(current: Option<Deployment>, revision: nat)

  datatype Write =
    | Scale(replicas: int)
    | Status(status: string)
    | Edit(spec: Desired)
    | Appear(replicas: int, spec: Desired)  // somebody else creates the object
    | Vanish

  datatype Outcome = Updated | Created | Conflict | Refused

  /** One attempt: how many of the others' writes the cache it reads has seen, and how
      many have reached the API server when it writes. */
  datatype Attempt = Attempt(read: nat, write: nat)

  // retry.DefaultRetry of client-go.
  const RETRY_STEPS: nat := 5

  // What the API server fills in when replicas is left unset.
  const DEFAULT_REPLICAS: int := 1

  /** A stored write takes a new version; one that changes nothing is dropped. */
  function Stored(s: Store, d: Deployment): Store
    requires s.current.Some?
  {
    if d.(version := s.current.value.version) == s.current.value then s
    else Store(Some(d.(version := s.revision + 1)), s.revision + 1)
  }

  function New(s: Store, replicas: int, spec: Desired): Store {
    Store(Some(Deployment(s.revision + 1, replicas, "", spec)), s.revision + 1)
  }

  function After(s: Store, w: Write): Store {
    match w
    case Scale(n) => if s.current.None? then s else Stored(s, s.current.value.(replicas := n))
    case Status(st) => if s.current.None? then s else Stored(s, s.current.value.(status := st))
    case Edit(spec) => if s.current.None? then s else Stored(s, s.current.value.(spec := spec))
    case Appear(n, spec) => if s.current.None? then New(s, n, spec) else s
    case Vanish => if s.current.None? then s else Store(None, s.revision + 1)
  }

  /** Each kind of write changes its own field and no other, and the version moves exactly
      when something changed. */
  lemma WritesMean(s: Store, w: Write)
    requires s.current.Some?
    ensures var d, next := s.current.value, s.revision + 1;
      After(s, w).current == match w
        case Scale(n) => Some(Deployment(if n == d.replicas then d.version else next, n, d.status, d.spec))
        case Status(st) => Some(Deployment(if st == d.status then d.version else next, d.replicas, st, d.spec))
        case Edit(spec) => Some(Deployment(if spec == d.spec then d.version else next, d.replicas, d.status, spec))
        case Appear(_, _) => Some(d)
        case Vanish => None
  {
  }

  lemma MissingWritesMean(s: Store, w: Write)
    requires s.current.None?
    ensures After(s, w) == match w
      case Appear(n, spec) => Store(Some(Deployment(s.revision + 1, n, "", spec)), s.revision + 1)
      case _ => s
  {
  }

  function AfterAll(s: Store, writes: seq<Write>): Store
    decreases |writes|
  {
    if writes == [] then s else AfterAll(After(s, writes[0]), writes[1..])
  }

  predicate Ok(s: Store) { s.current.Some? ==> s.current.value.version <= s.revision }

  /** None of the writes changes anything. */
  predicate Idle(s: Store, writes: seq<Write>) {
    forall j :: 0 <= j < |writes| ==> After(s, writes[j]) == s
  }

  /** The version check sees every change: after any writes, an object with the version
      that was read means that none of them changed anything. */
  lemma {:induction false} VersionTells(s: Store, writes: seq<Write>)
    requires Ok(s)
    ensures var s' := AfterAll(s, writes);
      && Ok(s') && s.revision <= s'.revision
      && (Idle(s, writes) <==> s'.revision == s.revision) && (Idle(s, writes) ==> s' == s)
      && (!Idle(s, writes) && s'.current.Some? ==> s'.current.value.version > s.revision)
    decreases |writes|
  {
    if writes != [] {
      var e := After(s, writes[0]);
      VersionTells(e, writes[1..]);
      if e == s {
        assert forall j :: 1 <= j < |writes| ==> writes[j] == writes[1..][j - 1];
        assert forall j :: 0 <= j < |writes[1..]| ==> writes[1..][j] == writes[j + 1];
      }
    }
  }

  /* ---- The others' writes, and what the reconciler sees of them ---- */

  /** The store after the first n of the others' writes. */
  function At(s: Store, others: seq<Write>, n: nat): Store
    requires n <= |others|
  {
    AfterAll(s, others[..n])
  }

  /** The cache never runs ahead of the server, and attempts write in order. */
  predicate Ordered(attempts: seq<Attempt>, from: nat, n: nat)
    decreases |attempts|
  {
    from <= n &&
    (attempts == [] ||
     (attempts[0].read <= attempts[0].write <= n && from <= attempts[0].write
      && Ordered(attempts[1..], attempts[0].write, n)))
  }

  lemma {:induction false} AfterAppend(s: Store, a: seq<Write>, b: seq<Write>)
    ensures AfterAll(s, a + b) == AfterAll(AfterAll(s, a), b)
    decreases |a|
  {
    if a == [] {
      assert a + b == b;
    } else {
      assert (a + b)[1..] == a[1..] + b;
      AfterAppend(After(s, a[0]), a[1..], b);
    }
  }

  lemma AtLater(s: Store, others: seq<Write>, m: nat, n: nat)
    requires m <= n <= |others|
    ensures At(s, others, n) == AfterAll(At(s, others, m), others[m..n])
  {
    assert others[..n] == others[..m] + others[m..n];
    AfterAppend(s, others[..m], others[m..n]);
  }

  /** The version check is exact about lag: what an attempt read and what it finds at its
      write are the same version if and only if no write it had not seen changed anything. */
  lemma LagTells(s: Store, others: seq<Write>, a: Attempt)
    requires Ok(s) && a.read <= a.write <= |others|
    ensures var read, at := At(s, others, a.read), At(s, others, a.write);
      && Ok(read) && Ok(at) && (Idle(read, others[a.read..a.write]) ==> at == read)
      && (read.current.Some? && at.current.Some? ==>
            (at.current.value.version == read.current.value.version <==> Idle(read, others[a.read..a.write])))
  {
    VersionTells(s, others[..a.read]);
    AtLater(s, others, a.read, a.write);
    VersionTells(At(s, others, a.read), others[a.read..a.write]);
  }

  /** The API server, with optimistic concurrency on updates, and the past states a
      lagging cache may still show. */
  class ApiServer {
    var store: Store
    var past: seq<Store>

    ghost predicate Valid(s: Store, others: seq<Write>, n: nat)
      reads this
    {
      n <= |others| && store == At(s, others, n) && |past| == n + 1
      && forall i: nat :: i <= n ==> past[i] == At(s, others, i)
    }

    constructor (store: Store)
      ensures forall others :: Valid(store, others, 0)
    {
      this.store := store;
      past := [store];
    }

    /** Get, from a cache that has seen n writes. */
    method Get(n: nat) returns (found: Option<Deployment>)
      requires n < |past|
      ensures found == past[n].current
    {
      found := past[n].current;
    }

    method Update(d: Deployment) returns (ok: bool)
      modifies this`store
      ensures ok <==> old(store).current.Some? && old(store).current.value.version == d.version
      ensures store == if ok then Stored(old(store), d) else old(store)
    {
      ok := store.current.Some? && store.current.value.version == d.version;
      if ok { store := Stored(store, d); }
    }

    method Create(spec: Desired) returns (ok: bool)
      modifies this`store
      ensures ok <==> old(store).current.None?
      ensures store == if ok then New(old(store), DEFAULT_REPLICAS, spec) else old(store)
    {
      ok := store.current.None?;
      if ok { store := New(store, DEFAULT_REPLICAS, spec); }
    }

    /** The others at work: their writes from number m up to n reach the server. */
    method Elsewhere(ghost s: Store, others: seq<Write>, m: nat, n: nat)
      requires m <= n <= |others| && Valid(s, others, m)
      modifies this
      ensures Valid(s, others, n)
    {
      for i := m to n
        invariant Valid(s, others, i)
      {
        AtLater(s, others, i, i + 1);
        assert others[i..i + 1] == [others[i]] && [others[i]][1..] == [];
        store := After(store, others[i]);
        past := past + [store];
      }
    }
  }

  /** The function that is retried: read from the cache, then create or update. */
  method TryOnce(api: ApiServer, desired: Desired, ghost s: Store, others: seq<Write>, at: nat, a: Attempt)
    returns (outcome: Outcome)
    requires Ok(s) && at <= a.write <= |others| && a.read <= a.write && api.Valid(s, others, at)
    modifies api
    ensures Contended(s, others, a) ==> outcome == Conflict && api.Valid(s, others, a.write)
    ensures !Contended(s, others, a) ==> (outcome, api.store) == Ended(s, others, desired, a) && outcome != Conflict
  {
    LagTells(s, others, a);
    api.Elsewhere(s, others, at, a.write);
    var existing := api.Get(a.read);
    if existing.None? {
      var ok := api.Create(desired);
      return if ok then Created else Refused;
    }
    if api.store.current.None? { return Refused; }
    var ok := api.Update(existing.value.(spec := desired));
    return if ok then Updated else Conflict;
  }

  /** reconcileDeployment, begun when `from` of the others' writes have reached the
      server; s is the oldest state the cache may still show. Only a version conflict is
      retried; an object that the cache misses or still shows wrongly ends it with the
      error of the create or update. */
  method ReconcileDeployment(api: ApiServer, desired: Desired, ghost s: Store, others: seq<Write>, from: nat,
                             attempts: seq<Attempt>)
    returns (outcome: Outcome)
    requires Ok(s) && from <= |others| && api.Valid(s, others, from)
    requires |attempts| == RETRY_STEPS && Ordered(attempts, from, |others|)
    modifies api
    ensures (outcome, api.store) == Tried(s, others, desired, attempts, from)
  {
    var k: nat, at: nat := 0, from;
    while k < RETRY_STEPS
      invariant 0 <= k <= RETRY_STEPS && at <= |others| && api.Valid(s, others, at)
      invariant Ordered(attempts[k..], at, |others|)
      invariant Tried(s, others, desired, attempts[k..], at) == Tried(s, others, desired, attempts, from)
    {
      assert attempts[k..][0] == attempts[k] && attempts[k..][1..] == attempts[k + 1..];
      outcome := TryOnce(api, desired, s, others, at, attempts[k]);
      if outcome != Conflict { return; }
      at := attempts[k].write;
      k := k + 1;
    }
    return Conflict;
  }

  /** An attempt is contended when the object is there for the reader and for the writer,
      and some write that the reader had not seen changed it. */
  predicate Contended(s: Store, others: seq<Write>, a: Attempt) {
    a.read <= a.write <= |others|
    && At(s, others, a.read).current.Some? && At(s, others, a.write).current.Some?
    && !Idle(At(s, others, a.read), others[a.read..a.write])
  }

  /** The outcome of a sequence of attempts, without mention of versions. */
  function Tried(s: Store, others: seq<Write>, desired: Desired, attempts: seq<Attempt>, from: nat): (Outcome, Store)
    requires Ordered(attempts, from, |others|)
    decreases |attempts|
  {
    if attempts == [] then (Conflict, At(s, others, from))
    else
      var a := attempts[0];
      if Contended(s, others, a) then Tried(s, others, desired, attempts[1..], a.write)
      else Ended(s, others, desired, a)
  }

  /** How an attempt that is not contended ends. */
  function Ended(s: Store, others: seq<Write>, desired: Desired, a: Attempt): (Outcome, Store)
    requires a.read <= a.write <= |others|
  {
    var read, at := At(s, others, a.read), At(s, others, a.write);
    if read.current.Some? && at.current.Some? then (Updated, Stored(at, at.current.value.(spec := desired)))
    else if read.current.None? && at.current.None? then (Created, New(at, DEFAULT_REPLICAS, desired))
    else (Refused, at)
  }

  /* ---- What the reconciler does to a store that others write ---- */

  /** Attempt k is the first that is not contended. */
  predicate EndsAt(s: Store, others: seq<Write>, attempts: seq<Attempt>, k: nat) {
    k < |attempts| && !Contended(s, others, attempts[k])
    && forall j :: 0 <= j < k ==> Contended(s, others, attempts[j])
  }

  /** The reconciler's write, on top of what the others alone made of the object (`at`),
      after reading `read`: it touches the desired fields and nothing else. */
  predicate Lands(outcome: Outcome, f: Store, read: Store, at: Store, desired: Desired) {
    match outcome
    case Updated =>
      read.current.Some? && at == read && f.current.Some?
      && f.current.value.spec == desired && f.current.value.replicas == at.current.value.replicas
      && f.current.value.status == at.current.value.status
    case Created =>
      read.current.None? && at.current.None? && f.current.Some?
      && f.current.value.spec == desired && f.current.value.replicas == 1
    case Refused => f == at && (read.current.None? <==> at.current.Some?)
    case Conflict => false
  }

  /** How many of the others' writes there are when the last attempt writes. */
  function LastWrite(attempts: seq<Attempt>, from: nat): nat {
    if attempts == [] then from else attempts[|attempts| - 1].write
  }

  lemma FirstLands(s: Store, others: seq<Write>, desired: Desired, attempts: seq<Attempt>, from: nat)
    requires Ok(s) && attempts != [] && Ordered(attempts, from, |others|) && !Contended(s, others, attempts[0])
    ensures var (outcome, f) := Tried(s, others, desired, attempts, from);
      && EndsAt(s, others, attempts, 0)
      && Lands(outcome, f, At(s, others, attempts[0].read), At(s, others, attempts[0].write), desired)
  {
    LagTells(s, others, attempts[0]);
  }

  lemma EndsLater(s: Store, others: seq<Write>, attempts: seq<Attempt>, k: nat)
    requires attempts != [] && Contended(s, others, attempts[0]) && EndsAt(s, others, attempts[1..], k)
    ensures EndsAt(s, others, attempts, k + 1) && attempts[k + 1] == attempts[1..][k]
  {
    forall j | 0 <= j < k + 1 ensures Contended(s, others, attempts[j]) {
      if j > 0 { assert Contended(s, others, attempts[1..][j - 1]); }
    }
  }

  /** No update is lost, whoever writes and however far the cache lags. Until the
      reconciler lands the store is what the others alone make of it; it ends in the
      first attempt that is not contended, and runs out of attempts exactly when all of
      them are, having changed nothing. */
  lemma {:induction false} NoLostUpdate(s: Store, others: seq<Write>, desired: Desired,
                                        attempts: seq<Attempt>, from: nat)
    requires Ok(s) && Ordered(attempts, from, |others|)
    ensures LastWrite(attempts, from) <= |others|
    ensures var (outcome, f) := Tried(s, others, desired, attempts, from);
      && (outcome.Conflict? <==> forall k :: 0 <= k < |attempts| ==> Contended(s, others, attempts[k]))
      && (outcome.Conflict? ==> f == At(s, others, LastWrite(attempts, from)))
      && (!outcome.Conflict? ==> exists k: nat ::
            && EndsAt(s, others, attempts, k) && attempts[k].read <= attempts[k].write <= |others|
            && Lands(outcome, f, At(s, others, attempts[k].read), At(s, others, attempts[k].write), desired))
    decreases |attempts|
  {
    if attempts != [] {
      var a, rest := attempts[0], attempts[1..];
      NoLostUpdate(s, others, desired, rest, a.write);
      if !Contended(s, others, a) {
        FirstLands(s, others, desired, attempts, from);
      } else {
        var (outcome, f) := Tried(s, others, desired, rest, a.write);
        assert forall k :: 0 <= k < |rest| ==> rest[k] == attempts[k + 1];
        if outcome.Conflict? {
          forall k | 0 <= k < |attempts| ensures Contended(s, others, attempts[k]) {
            if k > 0 { assert Contended(s, others, rest[k - 1]); }
          }
        } else {
          var k: nat :|
            && EndsAt(s, others, rest, k) && rest[k].read <= rest[k].write <= |others|
            && Lands(outcome, f, At(s, others, rest[k].read), At(s, others, rest[k].write), desired);
          EndsLater(s, others, attempts, k);
        }
      }
    }
  }

  /** A fresh read is enough: if some attempt reads what it will find, the retries do not
      run out. */
  lemma FreshReadEnds(s: Store, others: seq<Write>, desired: Desired, attempts: seq<Attempt>, from: nat, k: nat)
    requires Ok(s) && Ordered(attempts, from, |others|) && k < |attempts| && attempts[k].read == attempts[k].write
    ensures !Tried(s, others, desired, attempts, from).0.Conflict?
  {
    NoLostUpdate(s, others, desired, attempts, from);
    var a := attempts[k];
    if a.write <= |others| { assert others[a.read..a.write] == []; }
    assert !Contended(s, others, a);
  }

  /** Five attempts: four contended ones and a fifth that reads what it finds still land,
      five contended ones do not. */
  lemma FiveAttempts(s: Store, others: seq<Write>, desired: Desired, attempts: seq<Attempt>, from: nat)
    requires Ok(s) && Ordered(attempts, from, |others|) && |attempts| == RETRY_STEPS
    ensures Tried(s, others, desired, attempts, from).0.Conflict? <==>
      && Contended(s, others, attempts[0]) && Contended(s, others, attempts[1]) && Contended(s, others, attempts[2])
      && Contended(s, others, attempts[3]) && Contended(s, others, attempts[4])
    ensures
      && Contended(s, others, attempts[0]) && Contended(s, others, attempts[1]) && Contended(s, others, attempts[2])
      && Contended(s, others, attempts[3]) && attempts[4].read == attempts[4].write <= |others|
      && At(s, others, attempts[4].read).current.Some? ==>
        Tried(s, others, desired, attempts, from).0.Updated?
  {
    NoLostUpdate(s, others, desired, attempts, from);
    var a := attempts[4];
    if a.read == a.write <= |others| { assert others[a.read..a.write] == []; }
  }

  lemma {:induction false} ScaledAt(s: Store, others: seq<Write>, n: nat)
    requires s.current.Some? && n <= |others| && forall j :: 0 <= j < |others| ==> others[j].Scale?
    ensures At(s, others, n).current.Some?
    ensures var d, d' := s.current.value, At(s, others, n).current.value;
      && d'.spec == d.spec && d'.status == d.status
      && d'.replicas == if n == 0 then d.replicas else others[n - 1].replicas
  {
    if n == 0 {
      assert others[..0] == [];
    } else {
      ScaledAt(s, others, n - 1);
      AtLater(s, others, n - 1, n);
      assert others[n - 1..n] == [others[n - 1]] && [others[n - 1]][1..] == [];
      assert AfterAll(At(s, others, n - 1), [others[n - 1]]) == After(At(s, others, n - 1), others[n - 1]);
    }
  }

  /** Against the autoscaler alone a reconcile of an existing Deployment either runs out
      or lands, and then labels, selector and template are the desired ones while the
      replica count is the one KEDA wrote last before the attempt that ended it. */
  lemma KedaCountKept(s: Store, others: seq<Write>, desired: Desired, attempts: seq<Attempt>, from: nat)
    returns (k: nat, n: nat)
    requires Ok(s) && Ordered(attempts, from, |others|) && s.current.Some?
    requires forall j :: 0 <= j < |others| ==> others[j].Scale?
    ensures var (outcome, f) := Tried(s, others, desired, attempts, from);
      && (outcome == Updated || outcome == Conflict) && f.current.Some? && n <= |others|
      && (outcome == Updated ==> EndsAt(s, others, attempts, k) && n == attempts[k].write)
      && (outcome == Conflict ==> n == LastWrite(attempts, from))
      && f.current.value.replicas == (if n == 0 then s.current.value.replicas else others[n - 1].replicas)
      && f.current.value.status == s.current.value.status
      && f.current.value.spec == if outcome == Updated then desired else s.current.value.spec
  {
    NoLostUpdate(s, others, desired, attempts, from);
    var (outcome, f) := Tried(s, others, desired, attempts, from);
    k := 0;
    if outcome.Conflict? {
      n := LastWrite(attempts, from);
    } else {
      k :|
        && EndsAt(s, others, attempts, k) && attempts[k].read <= attempts[k].write <= |others|
        && Lands(outcome, f, At(s, others, attempts[k].read), At(s, others, attempts[k].write), desired);
      n := attempts[k].write;
      ScaledAt(s, others, attempts[k].read);
    }
    ScaledAt(s, others, n);
  }

  /** The retry does not help against a cache that lags throughout: one write by the
      autoscaler that the cache has not seen makes every attempt a conflict, although
      nobody writes during any of them. */
  lemma LaggingCacheExhausts(s: Store, n: int, desired: Desired)
    requires Ok(s) && s.current.Some? && s.current.value.replicas != n
    ensures var attempts := seq(RETRY_STEPS, _ => Attempt(0, 1));
      Ordered(attempts, 1, 1) && Tried(s, [Scale(n)], desired, attempts, 1) == (Conflict, After(s, Scale(n)))
  {
    var others, attempts := [Scale(n)], seq(RETRY_STEPS, _ => Attempt(0, 1));
    SameAttempts(attempts, Attempt(0, 1), 1, 1);
    AtLater(s, others, 0, 1);
    assert others[..0] == [] && others[0..1] == others && others[..1] == others && others[1..] == [];
    assert After(s, others[0]) != s;
    NoLostUpdate(s, others, desired, attempts, 1);
    assert forall k :: 0 <= k < |attempts| ==> Contended(s, others, attempts[k]);
  }

  /** And while the cache misses an object that exists, the reconcile is refused. */
  lemma LaggingCacheRefused(s: Store, n: int, spec: Desired, desired: Desired)
    requires Ok(s) && s.current.None?
    ensures var attempts := seq(RETRY_STEPS, _ => Attempt(0, 1));
      Ordered(attempts, 1, 1) && Tried(s, [Appear(n, spec)], desired, attempts, 1) == (Refused, New(s, n, spec))
  {
    var others, attempts := [Appear(n, spec)], seq(RETRY_STEPS, _ => Attempt(0, 1));
    SameAttempts(attempts, Attempt(0, 1), 1, 1);
    assert others[..0] == [] && others[..1] == others && others[1..] == [];
    assert At(s, others, 0) == s && At(s, others, 1) == AfterAll(After(s, others[0]), others[1..]) == New(s, n, spec);
    assert attempts[0] == Attempt(0, 1);
  }

  lemma {:induction false} SameAttempts(attempts: seq<Attempt>, a: Attempt, from: nat, n: nat)
    requires forall k :: 0 <= k < |attempts| ==> attempts[k] == a
    requires a.read <= a.write <= n && from <= a.write
    ensures Ordered(attempts, from, n)
    decreases |attempts|
  {
    if attempts != [] { SameAttempts(attempts[1..], a, a.write, n); }
  }
}

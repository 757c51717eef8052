/** Batch submission with idempotency keys, many requests at once: look-up, insert,
    re-fetch after a failed insert, expansion row by row. Any statement may fail, an
    insert may commit while its reply is lost, and a request may die at any point. */
module Submission {
  import opened Simulations

  // Batches up to this size expand before the reply, larger ones after it.
  const SYNC_EXPAND_THRESHOLD: nat := 100

  /** A request past validation: the handler insists on at least one variant, and an
      empty key means none. */
  datatype Req = Req(user: UserId, key: Option<string>, total: nat)

  datatype KeyedBatch = KeyedBatch(user: UserId, key: Option<string>, total: nat, creator: nat, children: nat)

  datatype Stage =
    | Fresh
    | Missed                             // no prior batch found, about to insert
    | Errored                            // the insert returned an error, about to re-fetch
    | Expanding(batch: nat, done: nat)   // created the batch and heard so
    | Over

  /** `replies` records the batch ids of accepted (202) replies. */
  datatype Sys = Sys(reqs: map<nat, Req>, stages: map<nat, Stage>, batches: seq<KeyedBatch>, replies: map<nat, nat>)

  datatype Step =
    | Arrive(p: nat, req: Req)
    | Lookup(p: nat)
    | Create(p: nat, heard: bool)
    | CreateFails(p: nat)
    | Refetch(p: nat)
    | InsertChild(p: nat)
    | Reply(p: nat)
    | Stop(p: nat)                       // error reply, failed expansion or crash

  predicate Same(b: KeyedBatch, r: Req) { b.user == r.user && b.key == r.key && r.key.Some? }

  predicate Exists(batches: seq<KeyedBatch>, r: Req) {
    exists b :: 0 <= b < |batches| && Same(batches[b], r)
  }

  /** FindBatchByIdempotencyKey, where it finds one. */
  function Find(batches: seq<KeyedBatch>, r: Req): (b: nat)
    requires Exists(batches, r)
    ensures b < |batches| && Same(batches[b], r)
  {
    var n := |batches| - 1;
    if Same(batches[n], r) then n else
      assert Exists(batches[..n], r) by {
        var b :| 0 <= b < |batches| && Same(batches[b], r);
        assert batches[..n][b] == batches[b];
      }
      Find(batches[..n], r)
  }

  predicate In(s: Sys, p: nat, st: Stage) { p in s.reqs && p in s.stages && s.stages[p] == st }

  predicate Expands(s: Sys, p: nat) {
    p in s.reqs && p in s.stages && s.stages[p].Expanding? && s.stages[p].batch < |s.batches|
  }

  predicate Enabled(s: Sys, step: Step) {
    match step
    case Arrive(p, req) => p !in s.reqs && req.total >= 1 && (req.key.Some? ==> req.key.value != "")
    case Lookup(p) => In(s, p, Fresh)
    case Create(p, _) => In(s, p, Missed)
    case CreateFails(p) => In(s, p, Missed)
    case Refetch(p) => In(s, p, Errored)
    case InsertChild(p) => Expands(s, p) && s.stages[p].done < s.reqs[p].total
    case Reply(p) =>
      Expands(s, p) && (s.stages[p].done == s.reqs[p].total || s.reqs[p].total > SYNC_EXPAND_THRESHOLD)
    case Stop(p) => p in s.stages
  }

  function Apply(s: Sys, step: Step): Sys
    requires Enabled(s, step)
  {
    match step
    case Arrive(p, req) => s.(reqs := s.reqs[p := req], stages := s.stages[p := Fresh])
    case Lookup(p) =>
      if Exists(s.batches, s.reqs[p]) then Accept(s, p, Find(s.batches, s.reqs[p]))
      else s.(stages := s.stages[p := Missed])
    case Create(p, heard) =>
      var r := s.reqs[p];
      if Exists(s.batches, r) then s.(stages := s.stages[p := Errored])  // unique violation
      else s.(batches := s.batches + [KeyedBatch(r.user, r.key, r.total, p, 0)],
              stages := s.stages[p := if heard then Expanding(|s.batches|, 0) else Errored])
    case CreateFails(p) => s.(stages := s.stages[p := Errored])
    case Refetch(p) =>
      if Exists(s.batches, s.reqs[p]) then Accept(s, p, Find(s.batches, s.reqs[p]))
      else s.(stages := s.stages[p := Over])
    case InsertChild(p) =>
      var b := s.stages[p].batch;
      s.(batches := s.batches[b := s.batches[b].(children := s.batches[b].children + 1)],
         stages := s.stages[p := Expanding(b, s.stages[p].done + 1)])
    case Reply(p) => s.(replies := s.replies[p := s.stages[p].batch])
    case Stop(p) => s.(stages := s.stages[p := Over])
  }

  function Accept(s: Sys, p: nat, b: nat): Sys {
    s.(replies := s.replies[p := b], stages := s.stages[p := Over])
  }

  function Run(s: Sys, steps: seq<Step>): Option<Sys>
    decreases |steps|
  {
    if steps == [] then Some(s)
    else if Enabled(s, steps[0]) then Run(Apply(s, steps[0]), steps[1..])
    else None
  }

  function Init(): Sys { Sys(map[], map[], [], map[]) }

  predicate Reachable(s: Sys, steps: seq<Step>) { Run(Init(), steps) == Some(s) }

  /* ---- The invariant ---- */

  /** The unique index on (user_id, idempotency_key). */
  ghost predicate UniqueKeys(batches: seq<KeyedBatch>) {
    forall a, b :: 0 <= a < b < |batches| && batches[a].key.Some? ==>
      batches[a].user != batches[b].user || batches[a].key != batches[b].key
  }

  predicate BatchOk(s: Sys, b: KeyedBatch) {
    && b.creator in s.reqs && s.reqs[b.creator] == Req(b.user, b.key, b.total)
    && b.creator in s.stages && !s.stages[b.creator].Fresh? && !s.stages[b.creator].Missed?
    && b.children <= b.total
  }

  predicate StageOk(s: Sys, p: nat, st: Stage) {
    st.Expanding? ==>
      st.batch < |s.batches| && s.batches[st.batch].creator == p && s.batches[st.batch].children == st.done
  }

  predicate ReplyOk(s: Sys, p: nat, b: nat) {
    && p in s.reqs && b < |s.batches|
    && s.batches[b].user == s.reqs[p].user && s.batches[b].key == s.reqs[p].key
    && (s.reqs[p].key.None? ==> s.batches[b].creator == p)
  }

  ghost predicate Inv(s: Sys) {
    && s.stages.Keys == s.reqs.Keys
    && UniqueKeys(s.batches)
    && (forall b :: 0 <= b < |s.batches| ==> BatchOk(s, s.batches[b]))
    && (forall p :: p in s.stages ==> StageOk(s, p, s.stages[p]))
    && (forall p :: p in s.replies ==> ReplyOk(s, p, s.replies[p]))
  }

  lemma StepBatch(s: Sys, step: Step, b: nat)
    requires Inv(s) && Enabled(s, step) && b < |Apply(s, step).batches|
    ensures BatchOk(Apply(s, step), Apply(s, step).batches[b])
  {
    if step.InsertChild? {
      assert StageOk(s, step.p, s.stages[step.p]);
    }
    if b < |s.batches| { assert BatchOk(s, s.batches[b]); }
  }

  lemma StepStage(s: Sys, step: Step, p: nat)
    requires Inv(s) && Enabled(s, step) && p in Apply(s, step).stages
    ensures StageOk(Apply(s, step), p, Apply(s, step).stages[p])
  {
    if step.InsertChild? { assert StageOk(s, step.p, s.stages[step.p]); }
    if p in s.stages { assert StageOk(s, p, s.stages[p]); }
  }

  /** Batches and requests keep their identity, so a reply once good stays good. */
  lemma ReplyStays(s: Sys, step: Step, p: nat, b: nat)
    requires Enabled(s, step) && ReplyOk(s, p, b)
    ensures ReplyOk(Apply(s, step), p, b)
  {
  }

  lemma FoundReplyOk(s: Sys, p: nat)
    requires p in s.reqs && Exists(s.batches, s.reqs[p])
    ensures ReplyOk(s, p, Find(s.batches, s.reqs[p]))
  {
  }

  lemma CreatorReplyOk(s: Sys, p: nat)
    requires Inv(s) && Expands(s, p)
    ensures ReplyOk(s, p, s.stages[p].batch)
  {
    assert StageOk(s, p, s.stages[p]) && BatchOk(s, s.batches[s.stages[p].batch]);
  }

  lemma StepReply(s: Sys, step: Step, p: nat)
    requires Inv(s) && Enabled(s, step) && p in Apply(s, step).replies
    ensures ReplyOk(Apply(s, step), p, Apply(s, step).replies[p])
  {
    var b := Apply(s, step).replies[p];
    if p in s.replies && s.replies[p] == b {
    } else if step.Reply? {
      CreatorReplyOk(s, p);
    } else {
      FoundReplyOk(s, p);
    }
    ReplyStays(s, step, p, b);
  }

  lemma StepKeys(s: Sys, step: Step)
    requires Inv(s) && Enabled(s, step)
    ensures UniqueKeys(Apply(s, step).batches) && Apply(s, step).stages.Keys == Apply(s, step).reqs.Keys
  {
    var s' := Apply(s, step);
    forall a, b | 0 <= a < b < |s'.batches| && s'.batches[a].key.Some?
      ensures s'.batches[a].user != s'.batches[b].user || s'.batches[a].key != s'.batches[b].key
    {
      if step.Create? && b == |s.batches| { assert !Same(s.batches[a], s.reqs[step.p]); }
    }
  }

  lemma StepInv(s: Sys, step: Step)
    requires Inv(s) && Enabled(s, step)
    ensures Inv(Apply(s, step))
  {
    var s' := Apply(s, step);
    StepKeys(s, step);
    forall b | 0 <= b < |s'.batches| ensures BatchOk(s', s'.batches[b]) { StepBatch(s, step, b); }
    forall p | p in s'.stages ensures StageOk(s', p, s'.stages[p]) { StepStage(s, step, p); }
    forall p | p in s'.replies ensures ReplyOk(s', p, s'.replies[p]) { StepReply(s, step, p); }
  }

  lemma {:induction false} RunInv(s: Sys, steps: seq<Step>)
    requires Inv(s) && Run(s, steps).Some?
    ensures Inv(Run(s, steps).value)
    decreases |steps|
  {
    if steps != [] {
      StepInv(s, steps[0]);
      RunInv(Apply(s, steps[0]), steps[1..]);
    }
  }

  /* ---- Main results ---- */

  /** All accepted replies for one user and key carry one batch id; replies to
      different users, or for different keys, carry different ones. */
  lemma OneBatchPerKey(s: Sys, steps: seq<Step>, p: nat, q: nat)
    requires Reachable(s, steps) && p in s.replies && q in s.replies && p != q
    ensures p in s.reqs && q in s.reqs
    ensures s.replies[p] == s.replies[q] <==>
      s.reqs[p].user == s.reqs[q].user && s.reqs[p].key == s.reqs[q].key && s.reqs[p].key.Some?
  {
    RunInv(Init(), steps);
    assert ReplyOk(s, p, s.replies[p]) && ReplyOk(s, q, s.replies[q]);
  }

  /** A resubmitted key is answered with the id of the batch it names, at the look-up as
      at the re-fetch, and nothing else changes. */
  lemma ResubmitAnswered(s: Sys, steps: seq<Step>, p: nat, b: nat)
    requires Reachable(s, steps) && (In(s, p, Fresh) || In(s, p, Errored)) && b < |s.batches|
    requires s.batches[b].user == s.reqs[p].user && s.batches[b].key == s.reqs[p].key && s.reqs[p].key.Some?
    ensures var step := if In(s, p, Fresh) then Lookup(p) else Refetch(p);
      Enabled(s, step) && Apply(s, step) == s.(replies := s.replies[p := b], stages := s.stages[p := Over])
  {
    RunInv(Init(), steps);
    assert Same(s.batches[b], s.reqs[p]) && Exists(s.batches, s.reqs[p]);
    var c := Find(s.batches, s.reqs[p]);
    assert s.batches[c].user == s.batches[b].user && s.batches[c].key == s.batches[b].key;
  }

  /** An insert under a key that is taken changes nothing and goes to the re-fetch. */
  lemma TakenKeyErrs(s: Sys, p: nat, b: nat, heard: bool)
    requires In(s, p, Missed) && b < |s.batches|
    requires s.batches[b].user == s.reqs[p].user && s.batches[b].key == s.reqs[p].key && s.reqs[p].key.Some?
    ensures Apply(s, Create(p, heard)) == s.(stages := s.stages[p := Errored])
  {
    assert Same(s.batches[b], s.reqs[p]) && Exists(s.batches, s.reqs[p]);
  }

  /** Without a batch under its key a request goes on from the look-up to the insert, gets
      a batch of its own there, and is turned away unanswered at the re-fetch. */
  lemma FreeKeyMoves(s: Sys, p: nat, heard: bool)
    requires p in s.reqs
    requires forall b :: 0 <= b < |s.batches| ==>
      s.reqs[p].key.None? || s.batches[b].user != s.reqs[p].user || s.batches[b].key != s.reqs[p].key
    ensures In(s, p, Fresh) ==> Apply(s, Lookup(p)) == s.(stages := s.stages[p := Missed])
    ensures In(s, p, Missed) ==>
      var r := s.reqs[p];
      Apply(s, Create(p, heard)) == s.(
        batches := s.batches + [KeyedBatch(r.user, r.key, r.total, p, 0)],
        stages := s.stages[p := if heard then Expanding(|s.batches|, 0) else Errored])
    ensures In(s, p, Missed) ==> Apply(s, CreateFails(p)) == s.(stages := s.stages[p := Errored])
    ensures In(s, p, Errored) ==> Apply(s, Refetch(p)) == s.(stages := s.stages[p := Over])
  {
    assert !Exists(s.batches, s.reqs[p]);
  }

  function CreateSteps(p: nat, req: Req): seq<Step> { [Arrive(p, req), Lookup(p), Create(p, true)] }

  function SubmitSteps(p: nat, req: Req): seq<Step> {
    CreateSteps(p, req) + (Inserts(p, req.total) + [Reply(p)])
  }

  /** A new key, or none, left to itself gets a batch of its own with all its children,
      and the reply carries that batch's id. */
  lemma FreshSubmitCompletes(s: Sys, steps: seq<Step>, p: nat, req: Req)
    requires Reachable(s, steps) && Enabled(s, Arrive(p, req))
    requires forall b :: 0 <= b < |s.batches| ==>
      req.key.None? || s.batches[b].user != req.user || s.batches[b].key != req.key
    ensures var f := Run(s, SubmitSteps(p, req));
      && f.Some? && p in f.value.replies && f.value.replies[p] == |s.batches|
      && f.value.batches == s.batches + [KeyedBatch(req.user, req.key, req.total, p, req.total)]
  {
    var s3 := CreatesOwn(s, p, req);
    var s4 := InsertsFill(s3, p, |s.batches|, req.total);
    var f := Replies(s4, p, |s.batches|);
    RunThree(s, CreateSteps(p, req), s3, Inserts(p, req.total), s4, [Reply(p)], f);
  }

  lemma Replies(s: Sys, p: nat, b: nat) returns (f: Sys)
    requires p in s.reqs && p in s.stages && s.stages[p] == Expanding(b, s.reqs[p].total) && b < |s.batches|
    ensures Run(s, [Reply(p)]) == Some(f)
    ensures f.batches == s.batches && p in f.replies && f.replies[p] == b
  {
    f := Apply(s, Reply(p));
    assert [Reply(p)][1..] == [];
  }

  lemma RunThree(s: Sys, a: seq<Step>, s1: Sys, b: seq<Step>, s2: Sys, c: seq<Step>, s3: Sys)
    requires Run(s, a) == Some(s1) && Run(s1, b) == Some(s2) && Run(s2, c) == Some(s3)
    ensures Run(s, a + (b + c)) == Some(s3)
  {
    RunAppend(s1, b, c);
    RunAppend(s, a, b + c);
  }

  lemma CreatesOwn(s: Sys, p: nat, req: Req) returns (f: Sys)
    requires Enabled(s, Arrive(p, req))
    requires forall b :: 0 <= b < |s.batches| ==>
      req.key.None? || s.batches[b].user != req.user || s.batches[b].key != req.key
    ensures Run(s, CreateSteps(p, req)) == Some(f)
    ensures f.batches == s.batches + [KeyedBatch(req.user, req.key, req.total, p, 0)]
    ensures p in f.reqs && f.reqs[p] == req && p in f.stages && f.stages[p] == Expanding(|s.batches|, 0)
  {
    var s1 := Apply(s, Arrive(p, req));
    assert !Exists(s1.batches, req);
    var s2 := Apply(s1, Lookup(p));
    f := Apply(s2, Create(p, true));
    var t := CreateSteps(p, req);
    assert t[2..] == [t[2]] && t[2..][1..] == [];
    assert Run(s2, t[2..]) == Some(f);
    assert t[1..][1..] == t[2..];
    assert Run(s1, t[1..]) == Some(f);
  }

  lemma {:induction false} InsertsFill(s: Sys, p: nat, b: nat, n: nat) returns (f: Sys)
    requires p in s.reqs && p in s.stages && s.stages[p].Expanding? && s.stages[p].batch == b < |s.batches|
    requires s.stages[p].done + n == s.reqs[p].total
    ensures Run(s, Inserts(p, n)) == Some(f) && f.reqs == s.reqs
    ensures p in f.stages && f.stages[p] == Expanding(b, s.reqs[p].total)
    ensures f.batches == s.batches[b := s.batches[b].(children := s.batches[b].children + n)]
    decreases n
  {
    if n == 0 {
      f := s;
    } else {
      f := InsertsFill(Apply(s, InsertChild(p)), p, b, n - 1);
      assert Inserts(p, n)[1..] == Inserts(p, n - 1);
    }
  }

  lemma {:induction false} RunAppend(s: Sys, a: seq<Step>, b: seq<Step>)
    requires Run(s, a).Some?
    ensures Run(s, a + b) == Run(Run(s, a).value, b)
    decreases |a|
  {
    if a == [] {
      assert a + b == b;
    } else {
      assert (a + b)[1..] == a[1..] + b;
      RunAppend(Apply(s, a[0]), a[1..], b);
    }
  }

  /** A creator may reply before its batch is expanded exactly above 100 variants. */
  lemma EarlyReplyIff(s: Sys, p: nat)
    requires Expands(s, p) && s.stages[p].done < s.reqs[p].total
    ensures Enabled(s, Reply(p)) <==> s.reqs[p].total > 100
  {
  }

  /** Only a batch's creator ever adds children to it, so two requests never expand
      one batch, and there are never more children than the declared total. */
  lemma OneExpander(s: Sys, steps: seq<Step>, b: nat)
    requires Reachable(s, steps) && b < |s.batches|
    ensures s.batches[b].children <= s.batches[b].total
    ensures forall p :: Expands(s, p) && s.stages[p].batch == b ==> p == s.batches[b].creator
  {
    RunInv(Init(), steps);
    assert BatchOk(s, s.batches[b]);
    forall p | Expands(s, p) && s.stages[p].batch == b ensures p == s.batches[b].creator {
      assert StageOk(s, p, s.stages[p]);
    }
  }

  predicate Live(s: Sys, b: nat)
    requires b < |s.batches|
  {
    var p := s.batches[b].creator;
    p in s.reqs && p in s.stages && s.stages[p].Expanding? && s.stages[p].batch == b
  }

  lemma StepAbandoned(s: Sys, b: nat, step: Step)
    requires Inv(s) && b < |s.batches| && !Live(s, b) && Enabled(s, step)
    ensures var s' := Apply(s, step); b < |s'.batches| && s'.batches[b] == s.batches[b] && !Live(s', b)
  {
    assert BatchOk(s, s.batches[b]);
    if step.InsertChild? { assert StageOk(s, step.p, s.stages[step.p]); }
  }

  /** A batch whose creator is not expanding it never gets another child, whoever
      submits the same key again. */
  lemma {:induction false} AbandonedStays(s: Sys, b: nat, more: seq<Step>)
    requires Inv(s) && b < |s.batches| && !Live(s, b) && Run(s, more).Some?
    ensures var s' := Run(s, more).value; b < |s'.batches| && s'.batches[b] == s.batches[b]
    decreases |more|
  {
    if more != [] {
      StepInv(s, more[0]);
      StepAbandoned(s, b, more[0]);
      AbandonedStays(Apply(s, more[0]), b, more[1..]);
    }
  }

  function Inserts(p: nat, n: nat): seq<Step> {
    if n == 0 then [] else [InsertChild(p)] + Inserts(p, n - 1)
  }

  lemma {:induction false} LiveFinishes(s: Sys, b: nat)
    requires Inv(s) && b < |s.batches| && Live(s, b)
    ensures var r := Run(s, Inserts(s.batches[b].creator, s.batches[b].total - s.batches[b].children));
      r.Some? && b < |r.value.batches| && r.value.batches[b].children == s.batches[b].total
    decreases s.batches[b].total - s.batches[b].children
  {
    var p, n := s.batches[b].creator, s.batches[b].total - s.batches[b].children;
    assert BatchOk(s, s.batches[b]) && StageOk(s, p, s.stages[p]);
    if n > 0 {
      var s1 := Apply(s, InsertChild(p));
      StepInv(s, InsertChild(p));
      assert Inserts(p, n)[1..] == Inserts(p, n - 1);
      LiveFinishes(s1, b);
    }
  }

  /** The promise that one submitter expands the batch holds exactly as long as its
      creator lives: the batch can still be completed if and only if it is complete
      already or its creator is still expanding it. */
  lemma CompletableIffCreatorLive(s: Sys, steps: seq<Step>, b: nat)
    requires Reachable(s, steps) && b < |s.batches|
    ensures (exists more :: Run(s, more).Some? && b < |Run(s, more).value.batches|
                            && Run(s, more).value.batches[b].children == s.batches[b].total)
       <==> s.batches[b].children == s.batches[b].total || Live(s, b)
  {
    RunInv(Init(), steps);
    if Live(s, b) {
      LiveFinishes(s, b);
      var more := Inserts(s.batches[b].creator, s.batches[b].total - s.batches[b].children);
      assert Run(s, more).Some?;
    } else {
      if s.batches[b].children == s.batches[b].total { assert Run(s, []) == Some(s); }
      if more :| Run(s, more).Some? && b < |Run(s, more).value.batches|
                 && Run(s, more).value.batches[b].children == s.batches[b].total {
        AbandonedStays(s, b, more);
      }
    }
  }

  /** How it breaks: the insert commits, its reply is lost, the re-fetch finds the
      request's own batch and accepts. The client holds a batch id nobody expands. */
  lemma LostReplyStrands(req: Req) returns (s: Sys, steps: seq<Step>)
    requires req.total >= 1 && req.key.Some? && req.key.value != ""
    ensures Reachable(s, steps) && s.reqs == map[0 := req] && s.replies == map[0 := 0]
    ensures s.batches == [KeyedBatch(req.user, req.key, req.total, 0, 0)] && !Live(s, 0)
    ensures forall more :: Run(s, more).Some? ==>
      |Run(s, more).value.batches| > 0 && Run(s, more).value.batches[0] == s.batches[0]
  {
    s, steps := LoseReply(req);
    RunInv(Init(), steps);
    forall more | Run(s, more).Some?
      ensures |Run(s, more).value.batches| > 0 && Run(s, more).value.batches[0] == s.batches[0]
    {
      AbandonedStays(s, 0, more);
    }
  }

  lemma LoseReply(req: Req) returns (s: Sys, steps: seq<Step>)
    requires req.total >= 1 && req.key.Some? && req.key.value != ""
    ensures Reachable(s, steps) && s.reqs == map[0 := req] && s.replies == map[0 := 0]
    ensures s.batches == [KeyedBatch(req.user, req.key, req.total, 0, 0)] && !Live(s, 0)
  {
    var s1 := Apply(Init(), Arrive(0, req));
    var s2 := Apply(s1, Lookup(0));
    var s3 := Apply(s2, Create(0, false));
    assert s3.batches == [KeyedBatch(req.user, req.key, req.total, 0, 0)];
    assert Same(s3.batches[0], req) && Exists(s3.batches, req);
    s := Apply(s3, Refetch(0));
    steps := [Arrive(0, req), Lookup(0), Create(0, false), Refetch(0)];
    RunFour(Init(), steps, s1, s2, s3, s);
  }

  lemma RunFour(s: Sys, t: seq<Step>, s1: Sys, s2: Sys, s3: Sys, s4: Sys)
    requires |t| == 4 && Enabled(s, t[0]) && s1 == Apply(s, t[0]) && Enabled(s1, t[1]) && s2 == Apply(s1, t[1])
    requires Enabled(s2, t[2]) && s3 == Apply(s2, t[2]) && Enabled(s3, t[3]) && s4 == Apply(s3, t[3])
    ensures Run(s, t) == Some(s4)
  {
    assert t[3..] == [t[3]] && t[3..][1..] == [];
    assert Run(s3, t[3..]) == Some(s4);
    assert t[2..][1..] == t[3..];
    assert Run(s2, t[2..]) == Some(s4);
    assert t[1..][1..] == t[2..];
    assert Run(s1, t[1..]) == Some(s4);
  }
}

/** The rollup of one batch under READ COMMITTED. A writing transaction changes
    child rows it has locked; after each change its trigger recomputes the batch
    from a snapshot (what was committed when the trigger's UPDATE started, plus the
    transaction's own changes) and then waits for the batch row's lock, so the
    counts it writes may be out of date. The resync sweep reads a snapshot and
    updates the batch in a statement of its own.

    Only children of the batch are read and only its row is written, so other
    batches cannot interfere and the model follows a single one. Slot k is the
    k-th variant of the batch. */
module StaleRollup {
  import opened Sums
  import opened Simulations
  import opened Rollup
  import L = Ledger

  type TxnId = nat

  /** An uncommitted version of a child row; its presence is the row lock. */
  datatype Version = Version(owner: TxnId, state: State)

  /** A writer with `synced` has run the triggers of all its changes so far. Once it has
      written the batch row, `counted` is the snapshot that version was computed from. */
  datatype Txn =
    | Writer(snap: Option<seq<Slot>>, counted: Option<seq<Slot>>, synced: bool)
    | Sweep(read: seq<Slot>)

  /** `slots` and `view` are committed, `pending` is not; `holder` has the batch row locked. */
  datatype Sys = Sys(slots: seq<Slot>, pending: seq<Option<Version>>, view: View,
                     holder: Option<TxnId>, txns: map<TxnId, Txn>)

  datatype Step =
    | Write(t: TxnId, k: nat, st: State)  // insert or change a child, uncommitted
    | Snapshot(t: TxnId)                  // the trigger's UPDATE takes its snapshot
    | WriteBatch(t: TxnId)                // ... and writes, once it has the row lock
    | Commit(t: TxnId)
    | Abort(t: TxnId)
    | SweepRead(t: TxnId)                 // ResyncStuckBatches takes its snapshot
    | SweepWrite(t: TxnId)                // ... and updates the batch if it qualifies

  /** The child moves that exist: insert, claim, requeue, finish, fail. */
  predicate Move(from: Slot, to: State) {
    match from
    case None => to.Queued? || to.Succeeded?
    case Some(Queued) => to.Running?
    case Some(Running) => !to.Running?
    case Some(_) => false
  }

  /** What transaction t sees: committed rows and its own changes. */
  function Seen(slots: seq<Slot>, pending: seq<Option<Version>>, t: TxnId): (o: seq<Slot>)
    requires |pending| == |slots|
    ensures |o| == |slots|
    ensures forall k :: 0 <= k < |slots| ==>
      o[k] == if Mine(pending[k], t) then Some(pending[k].value.state) else slots[k]
  {
    seq(|slots|, k requires 0 <= k < |slots| => if Mine(pending[k], t) then Some(pending[k].value.state) else slots[k])
  }

  predicate Mine(v: Option<Version>, t: TxnId) { v.Some? && v.value.owner == t }

  /** End of transaction t: its row versions are gone from the uncommitted ones. */
  function Released(pending: seq<Option<Version>>, t: TxnId): (o: seq<Option<Version>>)
    ensures |o| == |pending|
    ensures forall k :: 0 <= k < |pending| ==> o[k] == if Mine(pending[k], t) then None else pending[k]
  {
    seq(|pending|, k requires 0 <= k < |pending| => if Mine(pending[k], t) then None else pending[k])
  }

  predicate IsWriter(s: Sys, t: TxnId) { t in s.txns && s.txns[t].Writer? }

  predicate Enabled(s: Sys, step: Step) {
    && |s.pending| == |s.slots|
    && match step
    case Write(t, k, st) =>
      && k < |s.slots| && Move(s.slots[k], st) && s.pending[k].None?
      && (t in s.txns ==> s.txns[t].Writer? && s.txns[t].snap.None?)
    case Snapshot(t) => IsWriter(s, t)
    case WriteBatch(t) => IsWriter(s, t) && s.txns[t].snap.Some? && (s.holder.None? || s.holder == Some(t))
    case Commit(t) => IsWriter(s, t) && s.txns[t].snap.None? && s.txns[t].synced && s.txns[t].counted.Some?
    case Abort(t) => t in s.txns
    case SweepRead(t) => t !in s.txns
    case SweepWrite(t) => t in s.txns && s.txns[t].Sweep? && s.holder.None?
  }

  function Apply(s: Sys, step: Step): (s': Sys)
    requires Enabled(s, step)
    ensures |s'.pending| == |s'.slots| == |s.slots|
  {
    match step
    case Write(t, k, st) =>
      var open := if t in s.txns then s.txns[t] else Writer(None, None, false);
      s.(pending := s.pending[k := Some(Version(t, st))], txns := s.txns[t := open.(synced := false)])
    case Snapshot(t) =>
      s.(txns := s.txns[t := s.txns[t].(snap := Some(Seen(s.slots, s.pending, t)))])
    case WriteBatch(t) =>
      s.(holder := Some(t), txns := s.txns[t := Writer(None, s.txns[t].snap, true)])
    case Commit(t) =>
      s.(slots := Seen(s.slots, s.pending, t), pending := Released(s.pending, t),
         view := Recompute(s.txns[t].counted.value, |s.slots|), holder := None, txns := s.txns - {t})
    case Abort(t) =>
      s.(pending := Released(s.pending, t),
         holder := if s.holder == Some(t) then None else s.holder, txns := s.txns - {t})
    case SweepRead(t) => s.(txns := s.txns[t := Sweep(s.slots)])
    case SweepWrite(t) => s.(view := Resynced(s.view, s.txns[t].read, |s.slots|), txns := s.txns - {t})
  }

  function Run(s: Sys, steps: seq<Step>): Option<Sys>
    decreases |steps|
  {
    if steps == [] then Some(s)
    else if Enabled(s, steps[0]) then Run(Apply(s, steps[0]), steps[1..])
    else None
  }

  /** A batch as CreateBatch leaves it: no children, counts zero, 'expanding'. */
  function Init(total: nat): Sys {
    Sys(seq(total, _ => None), seq(total, _ => None), View(0, 0, Expanding), None, map[])
  }

  /* ---- The invariant ---- */

  /** Whatever a snapshot saw as terminal is still so. */
  predicate Past(snap: seq<Slot>, now: seq<Slot>) {
    |snap| == |now| && forall k :: 0 <= k < |snap| && Ended()(snap[k]) ==> now[k] == snap[k]
  }

  /** Counts never claim more than is there, and 'done' is exact. */
  predicate Honest(v: View, slots: seq<Slot>) {
    && v.succeeded <= Count(slots, Is(Succeeded)) && v.failed <= Count(slots, Is(Failed))
    && (v.phase.Done? ==> AllEnded(slots) && v == Recompute(slots, |slots|))
  }

  /** `seen` is what the transaction sees now. */
  predicate TxnOk(x: Txn, seen: seq<Slot>) {
    match x
    case Writer(snap, counted, synced) =>
      (snap.Some? ==> Past(snap.value, seen)) && (counted.Some? && synced ==> Past(counted.value, seen))
    case Sweep(read) => Past(read, seen)
  }

  ghost predicate Wrote(s: Sys, t: TxnId) {
    exists k :: 0 <= k < |s.pending| && Mine(s.pending[k], t)
  }

  ghost predicate LocksOk(s: Sys)
    requires |s.pending| == |s.slots|
  {
    && (forall k :: 0 <= k < |s.pending| && s.pending[k].Some? ==>
          Move(s.slots[k], s.pending[k].value.state) && IsWriter(s, s.pending[k].value.owner))
    && (forall t :: IsWriter(s, t) ==> Wrote(s, t) && (s.txns[t].counted.Some? <==> s.holder == Some(t)))
    && (s.holder.Some? ==> IsWriter(s, s.holder.value))
  }

  ghost predicate TxnsOk(s: Sys)
    requires |s.pending| == |s.slots|
  {
    forall t :: t in s.txns ==> TxnOk(s.txns[t], Seen(s.slots, s.pending, t))
  }

  ghost predicate Inv(s: Sys) {
    1 <= |s.slots| == |s.pending| && Honest(s.view, s.slots) && LocksOk(s) && TxnsOk(s)
  }

  /** Counts from a past snapshot are honest about the present. */
  lemma PastIsHonest(snap: seq<Slot>, now: seq<Slot>)
    requires Past(snap, now) && 1 <= |now|
    ensures Honest(Recompute(snap, |now|), now)
  {
    CountMono(snap, Is(Succeeded), now, Is(Succeeded));
    CountMono(snap, Is(Failed), now, Is(Failed));
    DoneIffAllEnded(snap, |now|);
    if AllEnded(snap) {
      assert snap == now;
    }
  }

  /** On one slot per variant, the sweep picks exactly the fully terminal snapshots. */
  lemma SweepPicksEnded(read: seq<Slot>)
    requires 1 <= |read|
    ensures Qualifies(read, |read|) <==> AllEnded(read)
  {
    CountAll(read, Present());
    CountZero(read, Is(Queued));
    CountZero(read, Is(Running));
    assert AllEnded(read) ==> forall k :: 0 <= k < |read| ==> Present()(read[k]);
  }

  lemma InitInv(total: nat)
    requires 1 <= total
    ensures Inv(Init(total))
  {
  }

  /** Row and batch locks stay consistent through every step. */
  lemma StepLocks(s: Sys, step: Step)
    requires |s.slots| == |s.pending| && LocksOk(s) && Enabled(s, step)
    ensures LocksOk(Apply(s, step))
  {
    var s' := Apply(s, step);
    if step.Write? {
      assert Mine(s'.pending[step.k], step.t);
    }
    forall a | IsWriter(s', a) ensures Wrote(s', a) {
      if IsWriter(s, a) {
        var j :| 0 <= j < |s.pending| && Mine(s.pending[j], a);
        assert Mine(s'.pending[j], a);
      }
    }
  }

  /** What another transaction sees, and saw, survives the commit of t: the rows t
      changed were locked by t and not terminal. */
  lemma CommitKeepsTxn(s: Sys, t: TxnId, a: TxnId)
    requires Inv(s) && Enabled(s, Commit(t)) && a in s.txns && a != t
    ensures var s' := Apply(s, Commit(t)); TxnOk(s.txns[a], Seen(s'.slots, s'.pending, a))
  {
    var s' := Apply(s, Commit(t));
    var before, after := Seen(s.slots, s.pending, a), Seen(s'.slots, s'.pending, a);
    assert TxnOk(s.txns[a], before);
    forall k | 0 <= k < |before| && Ended()(before[k]) ensures after[k] == before[k] {
      assert !Mine(s.pending[k], t);
    }
  }

  /** A transaction's own step keeps its view of the past and its counts honest. */
  lemma OwnStepKeepsTxn(s: Sys, step: Step)
    requires Inv(s) && Enabled(s, step)
    ensures var s' := Apply(s, step);
      step.t in s'.txns ==> TxnOk(s'.txns[step.t], Seen(s'.slots, s'.pending, step.t))
  {
    match step
    case Write(t, k, st) =>
    case WriteBatch(t) =>
      assert TxnOk(s.txns[t], Seen(s.slots, s.pending, t));
    case Snapshot(t) =>
      assert TxnOk(s.txns[t], Seen(s.slots, s.pending, t));
    case SweepRead(t) =>
      assert forall k :: 0 <= k < |s.slots| ==> !Mine(s.pending[k], t);
    case _ =>
  }

  lemma OtherStepKeepsTxn(s: Sys, step: Step, a: TxnId)
    requires Inv(s) && Enabled(s, step) && a != step.t && a in s.txns
    ensures var s' := Apply(s, step); TxnOk(s.txns[a], Seen(s'.slots, s'.pending, a))
  {
    if step.Commit? {
      CommitKeepsTxn(s, step.t, a);
    } else {
      var s' := Apply(s, step);
      assert Seen(s'.slots, s'.pending, a) == Seen(s.slots, s.pending, a);
      assert TxnOk(s.txns[a], Seen(s.slots, s.pending, a));
    }
  }

  lemma StepTxns(s: Sys, step: Step)
    requires Inv(s) && Enabled(s, step)
    ensures TxnsOk(Apply(s, step))
  {
    var s' := Apply(s, step);
    forall a | a in s'.txns ensures TxnOk(s'.txns[a], Seen(s'.slots, s'.pending, a)) {
      if a == step.t { OwnStepKeepsTxn(s, step); } else { OtherStepKeepsTxn(s, step, a); }
    }
  }

  lemma StepView(s: Sys, step: Step)
    requires Inv(s) && Enabled(s, step)
    ensures var s' := Apply(s, step); Honest(s'.view, s'.slots)
  {
    if step.Commit? {
      var seen := Seen(s.slots, s.pending, step.t);
      assert TxnOk(s.txns[step.t], seen);
      PastIsHonest(s.txns[step.t].counted.value, seen);
    } else if step.SweepWrite? {
      assert forall k :: 0 <= k < |s.slots| ==> Seen(s.slots, s.pending, step.t)[k] == s.slots[k];
      PastIsHonest(s.txns[step.t].read, s.slots);
      ResyncAgreesWithTrigger(s.txns[step.t].read, |s.slots|);
    }
  }

  lemma StepInv(s: Sys, step: Step)
    requires Inv(s) && Enabled(s, step)
    ensures Inv(Apply(s, step))
  {
    StepLocks(s, step);
    StepTxns(s, step);
    StepView(s, step);
  }

  lemma {:induction false} RunInv(s: Sys, steps: seq<Step>)
    requires Inv(s) && Run(s, steps).Some?
    ensures Inv(Run(s, steps).value)
    decreases |steps|
  {
    if steps != [] {
      StepInv(s, steps[0]);
      RunInv(Apply(s, steps[0]), steps[1..]);
    }
  }

  /* ---- Main results ---- */

  predicate Reachable(s: Sys, total: nat, steps: seq<Step>) {
    Run(Init(total), steps) == Some(s)
  }

  /** In every interleaving the batch row never reports more than has happened, and
      'done' means all `total` children are present and terminal with exact counts. */
  lemma DoneIsExact(s: Sys, total: nat, steps: seq<Step>)
    requires 1 <= total && Reachable(s, total, steps)
    ensures |s.slots| == total
    ensures s.view.succeeded <= Count(s.slots, Is(Succeeded)) && s.view.failed <= Count(s.slots, Is(Failed))
    ensures s.view.phase.Done? ==>
      && AllEnded(s.slots)
      && s.view.succeeded == Count(s.slots, Is(Succeeded)) && s.view.failed == Count(s.slots, Is(Failed))
      && s.view.succeeded + s.view.failed == total
  {
    InitInv(total);
    RunInv(Init(total), steps);
    RunLength(Init(total), steps);
    if s.view.phase.Done? {
      EndedSplits(s.slots);
      CountAll(s.slots, Ended());
    }
  }

  lemma {:induction false} RunLength(s: Sys, steps: seq<Step>)
    requires Run(s, steps).Some?
    ensures |Run(s, steps).value.slots| == |s.slots|
    decreases |steps|
  {
    if steps != [] { RunLength(Apply(s, steps[0]), steps[1..]); }
  }

  lemma WriterHasWork(s: Sys, t: TxnId)
    requires Inv(s) && IsWriter(s, t)
    ensures !AllEnded(s.slots)
  {
    assert Wrote(s, t);
    var k :| 0 <= k < |s.pending| && Mine(s.pending[k], t);
    assert Move(s.slots[k], s.pending[k].value.state);
    assert !Ended()(s.slots[k]);
  }

  /** Once every child is committed and terminal, nobody can be in the middle of a
      change to the batch. */
  lemma NoWriterLeft(s: Sys)
    requires Inv(s) && AllEnded(s.slots)
    ensures s.holder.None? && forall t :: t in s.txns ==> s.txns[t].Sweep?
  {
    forall t | t in s.txns ensures s.txns[t].Sweep? {
      if IsWriter(s, t) { WriterHasWork(s, t); }
    }
  }

  lemma {:induction false} EndedRun(s: Sys, steps: seq<Step>)
    requires Inv(s) && AllEnded(s.slots) && Run(s, steps).Some?
    ensures var s' := Run(s, steps).value;
      && s'.slots == s.slots
      && (s.view.phase.Done? ==> s'.view == s.view)
    decreases |steps|
  {
    if steps != [] {
      NoWriterLeft(s);
      StepInv(s, steps[0]);
      assert steps[0].Write? ==> Ended()(s.slots[steps[0].k]);
      EndedRun(Apply(s, steps[0]), steps[1..]);
    }
  }

  /** No later write, from a transaction already open or a new one, changes a done batch. */
  lemma DoneIsFinal(s: Sys, total: nat, steps: seq<Step>, more: seq<Step>)
    requires 1 <= total && Reachable(s, total, steps)
    requires s.view.phase.Done? && Run(s, more).Some?
    ensures Run(s, more).value.view == s.view && Run(s, more).value.slots == s.slots
  {
    InitInv(total);
    RunInv(Init(total), steps);
    EndedRun(s, more);
  }

  lemma {:induction false} RunAppend(s: Sys, a: seq<Step>, b: seq<Step>)
    requires Run(s, a).Some?
    ensures Run(s, a + b) == Run(Run(s, a).value, b)
    decreases |a|
  {
    if a == [] {
      assert a + b == b;
    } else {
      assert (a + b)[1..] == a[1..] + b;
      RunAppend(Apply(s, a[0]), a[1..], b);
    }
  }

  lemma StepTxnStays(s: Sys, t: TxnId, step: Step)
    requires Enabled(s, step) && t in s.txns && step.t != t
    ensures var s' := Apply(s, step); t in s'.txns && s'.txns[t] == s.txns[t]
  {
  }

  lemma {:induction false} TxnStays(s: Sys, t: TxnId, mid: seq<Step>)
    requires t in s.txns && Run(s, mid).Some?
    requires forall j :: 0 <= j < |mid| ==> mid[j].t != t
    ensures var s' := Run(s, mid).value; t in s'.txns && s'.txns[t] == s.txns[t]
    decreases |mid|
  {
    if mid != [] {
      StepTxnStays(s, t, mid[0]);
      TxnStays(Apply(s, mid[0]), t, mid[1..]);
    }
  }

  /** One resync sweep, begun when every child is present and terminal, always gets
      through, whatever else runs between its two halves; it leaves the batch done
      with exact counts, and nothing afterwards changes that. */
  lemma SweepRepairs(s: Sys, total: nat, steps: seq<Step>, t: TxnId, mid: seq<Step>, more: seq<Step>)
    requires 1 <= total && Reachable(s, total, steps) && AllEnded(s.slots)
    requires t !in s.txns && (forall j :: 0 <= j < |mid| ==> mid[j].t != t)
    requires Run(s, [SweepRead(t)] + mid).Some?
    ensures var w := Run(s, [SweepRead(t)] + mid).value;
      && Enabled(w, SweepWrite(t))
      && var f := Apply(w, SweepWrite(t));
      && f.slots == s.slots
      && f.view == View(Count(s.slots, Is(Succeeded)), Count(s.slots, Is(Failed)), Done)
      && f.view == Recompute(s.slots, total)
      && (Run(f, more).Some? ==> Run(f, more).value.view == f.view)
  {
    InitInv(total);
    RunInv(Init(total), steps);
    RunLength(Init(total), steps);
    var r := Apply(s, SweepRead(t));
    assert ([SweepRead(t)] + mid)[1..] == mid;
    assert Run(s, [SweepRead(t)] + mid) == Run(r, mid);
    StepInv(s, SweepRead(t));
    TxnStays(r, t, mid);
    EndedRun(r, mid);
    RunInv(r, mid);
    var w := Run(r, mid).value;
    NoWriterLeft(w);
    SweepPicksEnded(s.slots);
    ResyncAgreesWithTrigger(s.slots, total);
    StepInv(w, SweepWrite(t));
    var f := Apply(w, SweepWrite(t));
    if Run(f, more).Some? { EndedRun(f, more); }
  }

  /** Without the sweep: the commit that makes the last child terminal marks the
      batch done exactly when the snapshot behind the batch version it installs
      already held every other child's final state. */
  lemma LastCommitDoneIff(s: Sys, total: nat, steps: seq<Step>, t: TxnId)
    requires 1 <= total && Reachable(s, total, steps) && Enabled(s, Commit(t))
    requires AllEnded(Apply(s, Commit(t)).slots)
    ensures Apply(s, Commit(t)).view.phase.Done? <==> s.txns[t].counted == Some(Apply(s, Commit(t)).slots)
  {
    InitInv(total);
    RunInv(Init(total), steps);
    var counted, now := s.txns[t].counted.value, Seen(s.slots, s.pending, t);
    assert TxnOk(s.txns[t], now);
    DoneIffAllEnded(counted, |now|);
    if AllEnded(counted) { assert counted == now; }
  }

  /** In every phase, the view a commit installs has the numbers of succeeded and failed
      children of the snapshot it was computed from; a sweep that writes has those of
      its own. */
  lemma CommitInstalls(s: Sys, t: TxnId)
    requires Enabled(s, Commit(t))
    ensures var c, v := s.txns[t].counted.value, Apply(s, Commit(t)).view;
      && v.succeeded == |set k | 0 <= k < |c| && c[k] == Some(Succeeded)|
      && v.failed == |set k | 0 <= k < |c| && c[k] == Some(Failed)|
  {
    var c := s.txns[t].counted.value;
    CountIsCard(c, Is(Succeeded), set k | 0 <= k < |c| && c[k] == Some(Succeeded));
    CountIsCard(c, Is(Failed), set k | 0 <= k < |c| && c[k] == Some(Failed));
  }

  lemma SweepInstalls(s: Sys, t: TxnId)
    requires Enabled(s, SweepWrite(t)) && 1 <= |s.txns[t].read| == |s.slots|
    ensures var c, v := s.txns[t].read, Apply(s, SweepWrite(t)).view;
      if !s.view.phase.Done? && (forall k :: 0 <= k < |c| ==> c[k] == Some(Succeeded) || c[k] == Some(Failed)) then
        && v.succeeded == |set k | 0 <= k < |c| && c[k] == Some(Succeeded)|
        && v.failed == |set k | 0 <= k < |c| && c[k] == Some(Failed)|
        && v.phase == Done
      else v == s.view
  {
    var c := s.txns[t].read;
    SweepPicksEnded(c);
    CountIsCard(c, Is(Succeeded), set k | 0 <= k < |c| && c[k] == Some(Succeeded));
    CountIsCard(c, Is(Failed), set k | 0 <= k < |c| && c[k] == Some(Failed));
  }

  /** The child moves are those of the table: what an effect does to a row's state is a
      move, and every move is what some effect does to some row in that state. */
  lemma MovesAreEffects(r: Row, to: State)
    requires Shape(r) && to != r.state && Retryable(r)
    ensures Move(Some(r.state), to) <==>
      exists e: L.Effect :: L.Allowed([r], e) && L.OnRow(e) && L.RowsAfter([r], e)[0].state == to
  {
    var claim, requeue := L.Claim(0, "r", 0, 0), L.Requeue(0);
    var finish := L.Finish(0, to.Succeeded?, None, 0);
    if r.state.Queued? && to.Running? {
      assert L.Allowed([r], claim) && L.OnRow(claim) && L.RowsAfter([r], claim)[0].state == to;
    }
    if r.state.Running? && to.Queued? {
      assert L.Allowed([r], requeue) && L.OnRow(requeue) && L.RowsAfter([r], requeue)[0].state == to;
    }
    if r.state.Running? && to.Terminal() {
      assert L.Allowed([r], finish) && L.OnRow(finish) && L.RowsAfter([r], finish)[0].state == to;
    }
  }

  lemma InsertsAreMoves(p: NewSim, now: Time, to: State)
    ensures Move(None, Inserted(p, now).state)
    ensures Move(None, to) ==> exists q: NewSim :: Inserted(q, now).state == to
  {
    if Move(None, to) { assert Inserted(p.(cacheHit := to.Succeeded?), now).state == to; }
  }

  /** The four steps of a transaction that changes one child. */
  function Alone(t: TxnId, k: nat, st: State): seq<Step> {
    [Write(t, k, st), Snapshot(t), WriteBatch(t), Commit(t)]
  }

  /** With nothing else open, a transaction leaves the batch equal to the pure
      recomputation from its children. */
  lemma SerialWriteIsExact(s: Sys, t: TxnId, k: nat, st: State)
    requires Quiet(s) && k < |s.slots| && Move(s.slots[k], st)
    ensures Run(s, Alone(t, k, st)) ==
      Some(Sys(s.slots[k := Some(st)], s.pending, Recompute(s.slots[k := Some(st)], |s.slots|), None, map[]))
  {
    var s1 := Apply(s, Write(t, k, st));
    var s2 := Apply(s1, Snapshot(t));
    assert Seen(s1.slots, s1.pending, t) == s.slots[k := Some(st)];
    var s3 := Apply(s2, WriteBatch(t));
    var s4 := Apply(s3, Commit(t));
    assert s4.pending == s.pending;
    assert s4.txns == map[];
    RunFour(s, Write(t, k, st), Snapshot(t), WriteBatch(t), Commit(t));
  }

  predicate Quiet(s: Sys) {
    |s.pending| == |s.slots| && s.holder.None? && s.txns == map[]
    && forall k :: 0 <= k < |s.pending| ==> s.pending[k].None?
  }

  lemma RunFour(s: Sys, a: Step, b: Step, c: Step, d: Step)
    requires Enabled(s, a) && Enabled(Apply(s, a), b)
    requires Enabled(Apply(Apply(s, a), b), c) && Enabled(Apply(Apply(Apply(s, a), b), c), d)
    ensures Run(s, [a, b, c, d]) == Some(Apply(Apply(Apply(Apply(s, a), b), c), d))
  {
    var s1 := Apply(s, a);
    var s2 := Apply(s1, b);
    var s3 := Apply(s2, c);
    assert [a, b, c, d][1..] == [b, c, d];
    assert [b, c, d][1..] == [c, d];
    assert [c, d][1..] == [d];
    assert Run(s3, [d]) == Some(Apply(s3, d));
    assert Run(s2, [c, d]) == Run(s3, [d]);
    assert Run(s1, [b, c, d]) == Run(s2, [c, d]);
  }

  function RaceSteps(i: nat, j: nat): seq<Step> {
    [Write(1, i, Succeeded), Snapshot(1), WriteBatch(1), Write(2, j, Succeeded)]
      + [Snapshot(2), Commit(1), WriteBatch(2), Commit(2)]
  }

  /** The race the sweep is there for. From any quiet state with two children left
      running, let their runners finish at once: the second trigger counts from a
      snapshot taken before the first commit. Both children end up succeeded, no
      transaction is open, and the batch is still not done. */
  lemma MissedRollup(s: Sys, i: nat, j: nat)
    requires Quiet(s) && i < |s.slots| && j < |s.slots| && i != j
    requires s.slots[i] == s.slots[j] == Some(Running)
    ensures var f := Run(s, RaceSteps(i, j));
      && f.Some? && Quiet(f.value)
      && f.value.slots == s.slots[i := Some(Succeeded)][j := Some(Succeeded)]
      && !f.value.view.phase.Done?
  {
    var m := FirstHalf(s, i, j);
    RunAppend(s, [Write(1, i, Succeeded), Snapshot(1), WriteBatch(1), Write(2, j, Succeeded)],
              [Snapshot(2), Commit(1), WriteBatch(2), Commit(2)]);
    SecondHalf(m, i, j);
  }

  lemma FirstHalf(s: Sys, i: nat, j: nat) returns (m: Sys)
    requires Quiet(s) && i < |s.slots| && j < |s.slots| && i != j
    requires s.slots[i] == s.slots[j] == Some(Running)
    ensures Run(s, [Write(1, i, Succeeded), Snapshot(1), WriteBatch(1), Write(2, j, Succeeded)]) == Some(m)
    ensures m.slots == s.slots && |m.pending| == |m.slots|
    ensures forall k :: 0 <= k < |m.pending| ==>
      m.pending[k] == if k == i then Some(Version(1, Succeeded))
                      else if k == j then Some(Version(2, Succeeded)) else None
    ensures m.holder == Some(1) && m.txns.Keys == {1, 2} && m.txns[2] == Writer(None, None, false)
    ensures m.txns[1].Writer? && m.txns[1].snap.None? && m.txns[1].synced && m.txns[1].counted.Some?
  {
    var s1 := Apply(s, Write(1, i, Succeeded));
    var s2 := Apply(s1, Snapshot(1));
    var s3 := Apply(s2, WriteBatch(1));
    m := Apply(s3, Write(2, j, Succeeded));
    RunFour(s, Write(1, i, Succeeded), Snapshot(1), WriteBatch(1), Write(2, j, Succeeded));
  }

  lemma FirstCommits(m: Sys, i: nat, j: nat) returns (m2: Sys)
    requires i < |m.slots| == |m.pending| && j < |m.slots| && i != j
    requires m.slots[i] == m.slots[j] == Some(Running)
    requires forall k :: 0 <= k < |m.pending| ==>
      m.pending[k] == if k == i then Some(Version(1, Succeeded))
                      else if k == j then Some(Version(2, Succeeded)) else None
    requires m.holder == Some(1) && m.txns.Keys == {1, 2} && m.txns[2] == Writer(None, None, false)
    requires m.txns[1].Writer? && m.txns[1].snap.None? && m.txns[1].synced && m.txns[1].counted.Some?
    ensures Enabled(m, Snapshot(2)) && Enabled(Apply(m, Snapshot(2)), Commit(1))
    ensures m2 == Apply(Apply(m, Snapshot(2)), Commit(1))
    ensures m2.slots == m.slots[i := Some(Succeeded)] && m2.holder.None?
    ensures m2.txns == map[2 := Writer(Some(m.slots[j := Some(Succeeded)]), None, false)]
    ensures |m2.pending| == |m.pending|
    ensures forall k :: 0 <= k < |m.pending| ==> m2.pending[k] == if k == j then Some(Version(2, Succeeded)) else None
  {
    var m1 := Apply(m, Snapshot(2));
    assert Seen(m.slots, m.pending, 2) == m.slots[j := Some(Succeeded)];
    m2 := Apply(m1, Commit(1));
    assert m2.slots == m.slots[i := Some(Succeeded)];
    assert m2.txns == map[2 := Writer(Some(m.slots[j := Some(Succeeded)]), None, false)];
  }

  lemma SecondCommits(m: Sys, seen: seq<Slot>, j: nat) returns (f: Sys)
    requires j < |m.slots| == |m.pending| && m.holder.None? && m.txns == map[2 := Writer(Some(seen), None, false)]
    requires forall k :: 0 <= k < |m.pending| ==> m.pending[k] == if k == j then Some(Version(2, Succeeded)) else None
    ensures Enabled(m, WriteBatch(2)) && Enabled(Apply(m, WriteBatch(2)), Commit(2))
    ensures f == Apply(Apply(m, WriteBatch(2)), Commit(2)) && Quiet(f)
    ensures f.slots == m.slots[j := Some(Succeeded)] && f.view == Recompute(seen, |m.slots|)
  {
    f := Apply(Apply(m, WriteBatch(2)), Commit(2));
    assert f.slots == m.slots[j := Some(Succeeded)];
    assert f.txns == map[];
  }

  lemma SecondHalf(m: Sys, i: nat, j: nat)
    requires i < |m.slots| == |m.pending| && j < |m.slots| && i != j
    requires m.slots[i] == m.slots[j] == Some(Running)
    requires forall k :: 0 <= k < |m.pending| ==>
      m.pending[k] == if k == i then Some(Version(1, Succeeded))
                      else if k == j then Some(Version(2, Succeeded)) else None
    requires m.holder == Some(1) && m.txns.Keys == {1, 2} && m.txns[2] == Writer(None, None, false)
    requires m.txns[1].Writer? && m.txns[1].snap.None? && m.txns[1].synced && m.txns[1].counted.Some?
    ensures var f := Run(m, [Snapshot(2), Commit(1), WriteBatch(2), Commit(2)]);
      && f.Some? && Quiet(f.value)
      && f.value.slots == m.slots[i := Some(Succeeded)][j := Some(Succeeded)]
      && !f.value.view.phase.Done?
  {
    var seen := m.slots[j := Some(Succeeded)];
    var m2 := FirstCommits(m, i, j);
    var f := SecondCommits(m2, seen, j);
    RunFour(m, Snapshot(2), Commit(1), WriteBatch(2), Commit(2));
    DoneIffAllEnded(seen, |seen|);
    assert !Ended()(seen[i]);
  }
}

/** The run queue as a concurrent protocol. A claim takes advisory lock 42, reads a
    snapshot, picks an eligible row of it and commits; runners are sequential but may
    crash, restart under the same id, lose a claim's acknowledgement, or move on
    while one of their statements is still in flight; the reaper, inserts and
    back-fills run at any time in between. Clock readings are arbitrary (a
    transaction's now() is fixed when it begins), so nothing here relies on them. */
module Cluster {
  import opened Sums
  import opened Simulations
  import L = Ledger

  /** A call of claim_simulation; `now` is the start of its transaction. A claim is
      unattended when its runner has given up on the connection that carries it. */
  datatype Claim = Claim(runner: RunnerId, version: string, cap: int, lease: int, now: Time, attended: bool)

  datatype Lock =
    | Free
    | Held(c: Claim)
    | Snapped(c: Claim, snap: seq<Row>)
    | Picked(c: Claim, snap: seq<Row>, row: nat)

  /** A runner at work remembers its row and that row's `attempts` at the claim. */
  datatype Runner = Idle | Claiming | Working(row: nat, epoch: nat)

  /** A renew or finish statement whose sender no longer waits for it. */
  datatype Stray = Stray(runner: RunnerId, row: nat, epoch: nat)

  datatype Sys = Sys(rows: seq<Row>, log: seq<L.Event>, lock: Lock, runners: map<RunnerId, Runner>, strays: set<Stray>)

  datatype Step =
    | Insert(sim: NewSim, now: Time)
    | Begin(c: Claim)                  // BEGIN, and the advisory lock is granted
    | Snapshot                         // the claiming UPDATE takes its snapshot
    | Pick(row: nat)                   // ... and locks the row it will return
    | PickNothing                      // ... or finds none and commits
    | Commit(acked: bool)              // acked: the reply reaches the runner
    | Rollback
    | Renew(runner: RunnerId, now: Time, lease: int)
    | Finish(runner: RunnerId, ok: bool, error: Option<string>, now: Time, done: bool)
    | Crash(runner: RunnerId)
    | Abandon(runner: RunnerId)        // the runner moves on, a statement stays in flight
    | StrayRenew(x: Stray, now: Time, lease: int)
    | StrayFinish(x: Stray, ok: bool, error: Option<string>, now: Time)
    | Requeue(row: nat, now: Time)     // one row of a reaper sweep
    | LeaseFail(row: nat, now: Time)
    | Backfill(row: nat, digests: Digests)

  function StateOf(s: Sys, r: RunnerId): Runner {
    if r in s.runners then s.runners[r] else Idle
  }

  predicate Works(s: Sys, r: RunnerId) {
    StateOf(s, r).Working? && StateOf(s, r).row < |s.rows|
  }

  predicate Enabled(s: Sys, step: Step) {
    match step
    case Insert(_, _) => true
    case Begin(c) => s.lock.Free? && (c.attended ==> StateOf(s, c.runner).Idle?)
    case Snapshot => s.lock.Held?
    case Pick(i) => s.lock.Snapped? && Eligible(s.lock.snap, i, s.lock.c.version, s.lock.c.cap)
    case PickNothing => s.lock.Snapped?
    case Commit(_) => s.lock.Picked? && s.lock.row < |s.rows|
    case Rollback => !s.lock.Free?
    case Renew(r, _, _) => Works(s, r)
    case Finish(r, _, _, _, _) => Works(s, r)
    case Crash(r) => Works(s, r)
    case Abandon(r) => Works(s, r)
    case StrayRenew(x, _, _) => x in s.strays && x.row < |s.rows|
    case StrayFinish(x, _, _, _) => x in s.strays && x.row < |s.rows|
    case Requeue(i, now) => i < |s.rows| && Expired(s.rows[i], now) && Retryable(s.rows[i])
    case LeaseFail(i, now) => i < |s.rows| && Expired(s.rows[i], now) && !Retryable(s.rows[i])
    case Backfill(i, _) => i < |s.rows|
  }

  /** What a step does to the table. Renew and finish are fenced on runner_id. */
  function EffectOf(s: Sys, step: Step): (e: L.Effect)
    requires Enabled(s, step)
    ensures L.InTable(s.rows, e)
  {
    match step
    case Insert(p, now) => L.Add(p, now)
    case Commit(_) => L.Claim(s.lock.row, s.lock.c.runner, s.lock.c.now, s.lock.c.lease)
    case Renew(r, now, lease) => FencedRenew(s, s.runners[r].row, r, now, lease)
    case Finish(r, ok, error, now, _) => FencedFinish(s, s.runners[r].row, r, ok, error, now)
    case StrayRenew(x, now, lease) => FencedRenew(s, x.row, x.runner, now, lease)
    case StrayFinish(x, ok, error, now) => FencedFinish(s, x.row, x.runner, ok, error, now)
    case Requeue(i, _) => L.Requeue(i)
    case LeaseFail(i, now) => L.LeaseFail(i, now)
    case Backfill(i, d) => L.Backfill(i, d)
    case _ => L.Keep
  }

  function FencedRenew(s: Sys, i: nat, r: RunnerId, now: Time, lease: int): L.Effect
    requires i < |s.rows|
  {
    if Owns(s.rows[i], r) then L.Renew(i, now, lease) else L.Keep
  }

  function FencedFinish(s: Sys, i: nat, r: RunnerId, ok: bool, error: Option<string>, now: Time): L.Effect
    requires i < |s.rows|
  {
    if Owns(s.rows[i], r) then L.Finish(i, ok, error, now) else L.Keep
  }

  function LockAfter(s: Sys, step: Step): Lock
    requires Enabled(s, step)
  {
    match step
    case Begin(c) => Held(c)
    case Snapshot => Snapped(s.lock.c, s.rows)
    case Pick(i) => Picked(s.lock.c, s.lock.snap, i)
    case PickNothing => Free
    case Commit(_) => Free
    case Rollback => Free
    case _ => s.lock
  }

  function RunnersAfter(s: Sys, step: Step): map<RunnerId, Runner>
    requires Enabled(s, step)
  {
    match step
    case Begin(c) => Report(s, c, Claiming)
    case PickNothing => Report(s, s.lock.c, Idle)
    case Commit(acked) =>
      Report(s, s.lock.c, if acked then Working(s.lock.row, s.rows[s.lock.row].attempts + 1) else Idle)
    case Rollback => Report(s, s.lock.c, Idle)
    case Finish(r, _, _, _, done) => if done then s.runners[r := Idle] else s.runners
    case Crash(r) => s.runners[r := Idle]
    case Abandon(r) => s.runners[r := Idle]
    case _ => s.runners
  }

  /** What the runner of a claim learns of it. */
  function Report(s: Sys, c: Claim, news: Runner): map<RunnerId, Runner> {
    if c.attended then s.runners[c.runner := news] else s.runners
  }

  function StraysAfter(s: Sys, step: Step): set<Stray>
    requires Enabled(s, step)
  {
    match step
    case Abandon(r) => s.strays + {Stray(r, s.runners[r].row, s.runners[r].epoch)}
    case _ => s.strays
  }

  function Apply(s: Sys, step: Step): Sys
    requires Enabled(s, step)
  {
    var e := EffectOf(s, step);
    Sys(L.RowsAfter(s.rows, e), L.LogAfter(s.log, s.rows, e),
        LockAfter(s, step), RunnersAfter(s, step), StraysAfter(s, step))
  }

  function Run(s: Sys, steps: seq<Step>): Option<Sys>
    decreases |steps|
  {
    if steps == [] then Some(s)
    else if Enabled(s, steps[0]) then Run(Apply(s, steps[0]), steps[1..])
    else None
  }

  function Init(): Sys { Sys([], [], Free, map[], {}) }

  predicate Reachable(s: Sys, steps: seq<Step>) { Run(Init(), steps) == Some(s) }

  /** The largest cap any claim of the run uses. */
  predicate Capped(steps: seq<Step>, top: nat) {
    forall j :: 0 <= j < |steps| && steps[j].Begin? ==> steps[j].c.cap <= top
  }

  /* ---- The claim under the lock ---- */

  /** While the lock is held nobody else claims, so rows only stop running. */
  predicate NoneStarted(snap: seq<Row>, rows: seq<Row>) {
    forall i :: 0 <= i < |rows| && rows[i].state.Running? ==>
      i < |snap| && snap[i].state.Running? && snap[i].job == rows[i].job
  }

  /** What the snapshot saw queued is still queued. */
  predicate StillQueued(snap: seq<Row>, rows: seq<Row>) {
    && |snap| <= |rows|
    && forall i :: 0 <= i < |snap| ==>
         snap[i].job == rows[i].job && (snap[i].state.Queued? ==> rows[i].state.Queued?)
  }

  predicate SnapOk(snap: seq<Row>, rows: seq<Row>) { NoneStarted(snap, rows) && StillQueued(snap, rows) }

  ghost predicate ClaimInv(s: Sys, top: nat) {
    && Shaped(s.rows)
    && (!s.lock.Free? ==> s.lock.c.cap <= top)
    && (s.lock.Snapped? || s.lock.Picked? ==> SnapOk(s.lock.snap, s.rows))
    && (s.lock.Picked? ==> Eligible(s.lock.snap, s.lock.row, s.lock.c.version, s.lock.c.cap))
    && (forall u :: RunningCount(s.rows, u) <= top)
  }

  lemma SnapBoundsRunning(snap: seq<Row>, rows: seq<Row>, u: UserId)
    requires SnapOk(snap, rows)
    ensures RunningCount(rows, u) <= RunningCount(snap, u)
  {
    CountMono(rows, RunningOf(u), snap, RunningOf(u));
  }

  /** The row picked under the lock is still queued when the claim commits, whatever
      ran in between: it can never be claimed twice. */
  lemma PickedStillQueued(s: Sys, top: nat, acked: bool)
    requires ClaimInv(s, top) && s.lock.Picked?
    ensures Enabled(s, Commit(acked)) && s.rows[s.lock.row].state.Queued?
    ensures L.Allowed(s.rows, EffectOf(s, Commit(acked)))
  {
  }

  lemma StepAllowed(s: Sys, top: nat, step: Step)
    requires ClaimInv(s, top) && Enabled(s, step)
    ensures L.Allowed(s.rows, EffectOf(s, step))
  {
    if step.Commit? { PickedStillQueued(s, top, step.acked); }
  }

  /** A committing claim leaves its user at or below the claimer's own cap. */
  lemma CommitWithinCap(s: Sys, top: nat, acked: bool)
    requires ClaimInv(s, top) && s.lock.Picked?
    ensures Enabled(s, Commit(acked))
    ensures var u := s.rows[s.lock.row].job.user; RunningCount(Apply(s, Commit(acked)).rows, u) <= s.lock.c.cap
    ensures forall u :: RunningCount(Apply(s, Commit(acked)).rows, u) <= top
  {
    var c, i := s.lock.c, s.lock.row;
    SnapBoundsRunning(s.lock.snap, s.rows, s.rows[i].job.user);
    forall u ensures RunningCount(Apply(s, Commit(acked)).rows, u)
                     == RunningCount(s.rows, u) + (if u == s.rows[i].job.user then 1 else 0) {
      ClaimCounts(s.rows, i, c.runner, c.now, c.lease, u);
    }
  }

  /** Only a claim makes a row running. */
  lemma RunningWas(rows: seq<Row>, e: L.Effect, j: nat)
    requires L.Allowed(rows, e) && !e.Claim? && j < |L.RowsAfter(rows, e)| && L.RowsAfter(rows, e)[j].state.Running?
    ensures j < |rows| && rows[j].state.Running? && rows[j].job == L.RowsAfter(rows, e)[j].job
  {
  }

  /** Rows keep their jobs, and without a claim queued rows stay queued. */
  lemma QueuedStays(rows: seq<Row>, e: L.Effect, j: nat)
    requires L.Allowed(rows, e) && j < |rows|
    ensures j < |L.RowsAfter(rows, e)| && L.RowsAfter(rows, e)[j].job == rows[j].job
    ensures !e.Claim? && rows[j].state.Queued? ==> L.RowsAfter(rows, e)[j].state.Queued?
  {
  }

  lemma StepNoNewRunning(s: Sys, top: nat, step: Step, u: UserId)
    requires ClaimInv(s, top) && Enabled(s, step) && !step.Commit?
    ensures RunningCount(Apply(s, step).rows, u) <= RunningCount(s.rows, u)
  {
    var rows' := Apply(s, step).rows;
    StepAllowed(s, top, step);
    forall j | 0 <= j < |rows'| && RunningOf(u)(rows'[j]) ensures j < |s.rows| && RunningOf(u)(s.rows[j]) {
      RunningWas(s.rows, EffectOf(s, step), j);
    }
    CountMono(rows', RunningOf(u), s.rows, RunningOf(u));
  }

  /** Effects other than a claim keep a snapshot good. */
  lemma EffectSnap(snap: seq<Row>, rows: seq<Row>, e: L.Effect)
    requires SnapOk(snap, rows) && L.Allowed(rows, e) && !e.Claim?
    ensures SnapOk(snap, L.RowsAfter(rows, e))
  {
    EffectStartsNone(snap, rows, e);
    EffectKeepsQueued(snap, rows, e);
  }

  lemma EffectStartsNone(snap: seq<Row>, rows: seq<Row>, e: L.Effect)
    requires NoneStarted(snap, rows) && L.Allowed(rows, e) && !e.Claim?
    ensures NoneStarted(snap, L.RowsAfter(rows, e))
  {
    var rows' := L.RowsAfter(rows, e);
    forall i | 0 <= i < |rows'| && rows'[i].state.Running?
      ensures i < |snap| && snap[i].state.Running? && snap[i].job == rows'[i].job
    {
      RunningWas(rows, e, i);
    }
  }

  lemma EffectKeepsQueued(snap: seq<Row>, rows: seq<Row>, e: L.Effect)
    requires StillQueued(snap, rows) && L.Allowed(rows, e) && !e.Claim?
    ensures StillQueued(snap, L.RowsAfter(rows, e))
  {
    var rows' := L.RowsAfter(rows, e);
    forall i | 0 <= i < |snap|
      ensures snap[i].job == rows'[i].job && (snap[i].state.Queued? ==> rows'[i].state.Queued?)
    {
      assert snap[i].job == rows[i].job;
      QueuedStays(rows, e, i);
    }
  }

  lemma StepSnap(s: Sys, top: nat, step: Step)
    requires ClaimInv(s, top) && Enabled(s, step)
    ensures var l := LockAfter(s, step); l.Snapped? || l.Picked? ==> SnapOk(l.snap, Apply(s, step).rows)
  {
    var l := LockAfter(s, step);
    if l.Snapped? || l.Picked? {
      StepAllowed(s, top, step);
      if !step.Snapshot? { EffectSnap(l.snap, s.rows, EffectOf(s, step)); }
    }
  }

  lemma StepClaimInv(s: Sys, top: nat, step: Step)
    requires ClaimInv(s, top) && Enabled(s, step) && (step.Begin? ==> step.c.cap <= top)
    ensures ClaimInv(Apply(s, step), top)
  {
    StepAllowed(s, top, step);
    L.EffectShape(s.rows, EffectOf(s, step));
    StepSnap(s, top, step);
    if step.Commit? {
      CommitWithinCap(s, top, step.acked);
    } else {
      forall u ensures RunningCount(Apply(s, step).rows, u) <= top {
        StepNoNewRunning(s, top, step, u);
      }
    }
  }

  /* ---- The runner_id fence ---- */

  /** A runner or stray statement that remembers (row, epoch) never remembers more
      than the row has seen. */
  predicate EpochOk(rows: seq<Row>, i: nat, epoch: nat) {
    i < |rows| && 1 <= epoch <= rows[i].attempts
  }

  /** Runner r waits for each of its own claims; others may do as they like. */
  predicate AttendedBy(steps: seq<Step>, r: RunnerId) {
    forall j :: 0 <= j < |steps| && steps[j].Begin? && steps[j].c.runner == r ==> steps[j].c.attended
  }

  ghost predicate EpochInv(s: Sys) {
    && (forall r :: r in s.runners && s.runners[r].Working? ==> EpochOk(s.rows, s.runners[r].row, s.runners[r].epoch))
    && (forall x :: x in s.strays ==> EpochOk(s.rows, x.row, x.epoch))
  }

  /** If the fence lets runner r through, its claim is the row's latest. */
  predicate Current(rows: seq<Row>, r: RunnerId, w: Runner) {
    w.Working? && w.row < |rows| && Owns(rows[w.row], r) ==> w.epoch == rows[w.row].attempts
  }

  /** A runner that waits for its claims remembers the latest epoch of what it owns. */
  predicate FenceInv(s: Sys, r: RunnerId) {
    && Current(s.rows, r, StateOf(s, r))
    && (!s.lock.Free? && s.lock.c.runner == r ==> s.lock.c.attended && StateOf(s, r).Claiming?)
  }

  lemma StepEpochInv(s: Sys, step: Step)
    requires EpochInv(s) && Enabled(s, step) && L.Allowed(s.rows, EffectOf(s, step)) && Shaped(s.rows)
    ensures EpochInv(Apply(s, step))
  {
    var s' := Apply(s, step);
    L.EffectShape(s.rows, EffectOf(s, step));
    forall r | r in s'.runners && s'.runners[r].Working?
      ensures EpochOk(s'.rows, s'.runners[r].row, s'.runners[r].epoch)
    {
      if r in s.runners && s.runners[r] == s'.runners[r] {
        assert RowEvolves(s.rows[s.runners[r].row], s'.rows[s.runners[r].row]);
      }
    }
    forall x | x in s'.strays ensures EpochOk(s'.rows, x.row, x.epoch) {
      assert RowEvolves(s.rows[x.row], s'.rows[x.row]);
    }
  }

  /** A step keeps a runner's fence: only its own claim can give it a row, and that
      claim also gives it the row's new epoch. */
  lemma StepFence(s: Sys, step: Step, r: RunnerId)
    requires EpochInv(s) && FenceInv(s, r) && Shaped(s.rows)
    requires step.Begin? && step.c.runner == r ==> step.c.attended
    requires Enabled(s, step) && L.Allowed(s.rows, EffectOf(s, step))
    ensures FenceInv(Apply(s, step), r)
  {
    var s', e := Apply(s, step), EffectOf(s, step);
    var w := StateOf(s', r);
    if step.Commit? && s.lock.c.runner == r {
    } else if w.Working? {
      assert StateOf(s, r) == w && EpochOk(s.rows, w.row, w.epoch) && Current(s.rows, r, w);
      if L.OnRow(e) && e.row == w.row {
        assert s'.rows[w.row] == L.RowAfter(s.rows[w.row], e);
      }
    }
  }

  /* ---- Whole runs ---- */

  ghost predicate Inv(s: Sys, top: nat) {
    ClaimInv(s, top) && EpochInv(s) && L.Booked(s.rows, s.log)
    && L.Balanced(s.rows, s.log) && L.WithinBudget(s.rows, s.log)
  }

  lemma StepInv(s: Sys, top: nat, step: Step)
    requires Inv(s, top) && Enabled(s, step) && (step.Begin? ==> step.c.cap <= top)
    ensures Inv(Apply(s, step), top) && Evolves(s.rows, Apply(s, step).rows)
  {
    StepAllowed(s, top, step);
    StepClaimInv(s, top, step);
    StepEpochInv(s, step);
    L.EffectShape(s.rows, EffectOf(s, step));
    L.EffectBooked(s.rows, s.log, EffectOf(s, step));
    L.EffectBalanced(s.rows, s.log, EffectOf(s, step));
    L.EffectWithinBudget(s.rows, s.log, EffectOf(s, step));
  }

  lemma {:induction false} RunInv(s: Sys, top: nat, steps: seq<Step>)
    requires Inv(s, top) && Run(s, steps).Some? && Capped(steps, top)
    ensures Inv(Run(s, steps).value, top)
    decreases |steps|
  {
    if steps != [] {
      var s' := Apply(s, steps[0]);
      assert steps[0].Begin? ==> steps[0].c.cap <= top;
      StepInv(s, top, steps[0]);
      assert Run(s, steps) == Run(s', steps[1..]);
      RunInv(s', top, steps[1..]);
    }
  }

  lemma {:induction false} RunEvolves(s: Sys, top: nat, steps: seq<Step>)
    requires Inv(s, top) && Run(s, steps).Some? && Capped(steps, top)
    ensures Evolves(s.rows, Run(s, steps).value.rows)
    decreases |steps|
  {
    if steps != [] {
      var s' := Apply(s, steps[0]);
      assert steps[0].Begin? ==> steps[0].c.cap <= top;
      StepInv(s, top, steps[0]);
      assert Run(s, steps) == Run(s', steps[1..]);
      RunEvolves(s', top, steps[1..]);
      EvolvesTransitive(s.rows, s'.rows, Run(s, steps).value.rows);
    }
  }

  lemma FenceStep(s: Sys, top: nat, step: Step, r: RunnerId)
    requires Inv(s, top) && FenceInv(s, r) && Enabled(s, step)
    requires step.Begin? ==> step.c.cap <= top && (step.c.runner == r ==> step.c.attended)
    ensures Inv(Apply(s, step), top) && FenceInv(Apply(s, step), r)
  {
    StepAllowed(s, top, step);
    StepInv(s, top, step);
    StepFence(s, step, r);
  }

  lemma {:induction false} RunFence(s: Sys, top: nat, steps: seq<Step>, r: RunnerId)
    requires Inv(s, top) && FenceInv(s, r) && Run(s, steps).Some? && Capped(steps, top) && AttendedBy(steps, r)
    ensures FenceInv(Run(s, steps).value, r)
    decreases |steps|
  {
    if steps != [] {
      var s' := Apply(s, steps[0]);
      assert steps[0].Begin? ==> steps[0].c.cap <= top && (steps[0].c.runner == r ==> steps[0].c.attended);
      FenceStep(s, top, steps[0], r);
      assert Run(s, steps) == Run(s', steps[1..]);
      RunFence(s', top, steps[1..], r);
    }
  }

  lemma ReachableInv(s: Sys, top: nat, steps: seq<Step>)
    requires Reachable(s, steps) && Capped(steps, top)
    ensures Inv(s, top)
  {
    RunInv(Init(), top, steps);
  }

  /** What the statements of a runner, its strays and the reaper write, column by column:
      the owner of a running row moves it, anybody else nothing. */
  lemma StatementsWrite(s: Sys, step: Step)
    requires Enabled(s, step)
    ensures var rows' := Apply(s, step).rows;
      match step
      case Insert(p, now) => rows' == s.rows + [Inserted(p, now)]
      case Commit(_) =>
        var c, i := s.lock.c, s.lock.row;
        rows' == s.rows[i := s.rows[i].(state := Running, runner := Some(c.runner), startedAt := Some(c.now),
                                        lease := Some(c.now + c.lease), attempts := s.rows[i].attempts + 1)]
      case Renew(r, now, lease) => rows' == AfterRenew(s.rows, s.runners[r].row, r, now, lease)
      case StrayRenew(x, now, lease) => rows' == AfterRenew(s.rows, x.row, x.runner, now, lease)
      case Finish(r, ok, error, now, _) => rows' == AfterFinish(s.rows, s.runners[r].row, r, ok, error, now)
      case StrayFinish(x, ok, error, now) => rows' == AfterFinish(s.rows, x.row, x.runner, ok, error, now)
      case Requeue(i, _) => rows' == s.rows[i := s.rows[i].(state := Queued, runner := None, lease := None)]
      case LeaseFail(i, now) =>
        rows' == s.rows[i := s.rows[i].(state := Failed, error := Some("lease expired"), finishedAt := Some(now))]
      case Backfill(i, d) => rows' == s.rows[i := s.rows[i].(digests := d)]
      case _ => rows' == s.rows
  {
  }

  /** Every end of a claim frees the lock for the next, and a runner that waited for it
      goes to work exactly if the claim committed and the reply arrived. */
  lemma ClaimEnds(s: Sys, step: Step)
    requires Enabled(s, step) && (step.Commit? || step.PickNothing? || step.Rollback?)
    ensures var s', c := Apply(s, step), s.lock.c;
      && s'.lock == Free && Enabled(s', Begin(c.(attended := false))) && s'.strays == s.strays
      && (!c.attended ==> s'.runners == s.runners)
      && (c.attended ==>
            StateOf(s', c.runner)
              == if step.Commit? && step.acked then Working(s.lock.row, s'.rows[s.lock.row].attempts) else Idle)
      && (forall r :: r != c.runner ==> StateOf(s', r) == StateOf(s, r))
  {
  }

  function AfterRenew(rows: seq<Row>, i: nat, r: RunnerId, now: Time, lease: int): seq<Row>
    requires i < |rows|
  {
    if rows[i].state == Running && rows[i].runner == Some(r)
    then rows[i := rows[i].(lease := Some(now + lease))]
    else rows
  }

  function AfterFinish(rows: seq<Row>, i: nat, r: RunnerId, ok: bool, error: Option<string>, now: Time): seq<Row>
    requires i < |rows|
  {
    if rows[i].state == Running && rows[i].runner == Some(r)
    then rows[i := rows[i].(state := if ok then Succeeded else Failed,
                            finishedAt := Some(now), error := error, lease := None)]
    else rows
  }

  /** The per-user cap is hard: in every interleaving, no user ever has more running
      rows than the largest cap any pool claims with. */
  lemma CapHolds(s: Sys, top: nat, steps: seq<Step>, u: UserId)
    requires Reachable(s, steps) && Capped(steps, top)
    ensures RunningCount(s.rows, u) <= top
    ensures |set i | 0 <= i < |s.rows| && s.rows[i].job.user == u && s.rows[i].state.Running?| <= top
  {
    ReachableInv(s, top, steps);
    RunningIsCard(s.rows, u);
  }

  /** A claim about to commit finds its row still queued, and leaves that row's user
      within the claimer's own cap even when other pools allow more. */
  lemma ClaimIsExclusive(s: Sys, top: nat, steps: seq<Step>, acked: bool)
    requires Reachable(s, steps) && Capped(steps, top) && s.lock.Picked?
    ensures Enabled(s, Commit(acked)) && s.rows[s.lock.row].state.Queued?
    ensures s.rows[s.lock.row].job.version == s.lock.c.version
    ensures RunningCount(Apply(s, Commit(acked)).rows, s.rows[s.lock.row].job.user) <= s.lock.c.cap
  {
    ReachableInv(s, top, steps);
    PickedStillQueued(s, top, acked);
    CommitWithinCap(s, top, acked);
  }

  /** For a runner that waits for its own claims, the runner_id fence is as strong as a
      claim-epoch fence, whatever the others do: it lets the runner's renew or finish
      through only if the runner's claim is the row's latest. */
  lemma FenceIsEpoch(s: Sys, top: nat, steps: seq<Step>, r: RunnerId)
    requires Reachable(s, steps) && Capped(steps, top) && AttendedBy(steps, r) && StateOf(s, r).Working?
    ensures Works(s, r)
    ensures var w := s.runners[r];
      && w.epoch <= s.rows[w.row].attempts
      && (Owns(s.rows[w.row], r) ==> w.epoch == s.rows[w.row].attempts)
  {
    ReachableInv(s, top, steps);
    RunFence(Init(), top, steps, r);
    assert EpochOk(s.rows, s.runners[r].row, s.runners[r].epoch);
  }

  /** Without that assumption, and for statements left in flight by an earlier life of
      a runner: a statement that passes the fence belongs to the row's latest claim
      exactly when the same runner id has not claimed the same row again since. */
  lemma FenceIffNotReclaimed(s: Sys, top: nat, steps: seq<Step>, x: Stray)
    requires Reachable(s, steps) && Capped(steps, top)
    requires x in s.strays || StateOf(s, x.runner) == Working(x.row, x.epoch)
    ensures x.row < |s.rows|
    ensures Owns(s.rows[x.row], x.runner) ==>
      (s.rows[x.row].attempts == x.epoch <==>
       !exists ev :: ev in s.log && ev.ClaimEvent? && ev.row == x.row && ev.runner == x.runner && ev.epoch > x.epoch)
  {
    ReachableInv(s, top, steps);
    assert EpochOk(s.rows, x.row, x.epoch);
    if Owns(s.rows[x.row], x.runner) {
      assert L.ClaimEvent(x.row, x.runner, s.rows[x.row].attempts) in s.log;
    }
  }

  /** Terminal rows are absorbing over any stretch of any run, rows are never lost,
      and every row keeps its shape. */
  lemma TerminalIsFinal(s: Sys, top: nat, steps: seq<Step>, more: seq<Step>)
    requires Reachable(s, steps) && Capped(steps, top) && Run(s, more).Some? && Capped(more, top)
    ensures Evolves(s.rows, Run(s, more).value.rows) && Shaped(Run(s, more).value.rows)
    ensures |s.rows| <= |Run(s, more).value.rows|
    ensures forall i :: 0 <= i < |s.rows| ==>
      var r, r' := s.rows[i], Run(s, more).value.rows[i];
      && r'.job == r.job && r'.createdAt == r.createdAt && r'.maxAttempts == r.maxAttempts && r.attempts <= r'.attempts
      && (r.state == Succeeded || r.state == Failed ==>
            r'.state == r.state && r'.attempts == r.attempts && r'.error == r.error
            && r'.startedAt == r.startedAt && r'.finishedAt == r.finishedAt)
  {
    ReachableInv(s, top, steps);
    RunInv(s, top, more);
    RunEvolves(s, top, more);
    forall i | 0 <= i < |s.rows| ensures RowEvolves(s.rows[i], Run(s, more).value.rows[i]) {
    }
  }

  /** The shape of every row of every reachable state. */
  lemma RowsShaped(s: Sys, top: nat, steps: seq<Step>, i: nat)
    requires Reachable(s, steps) && Capped(steps, top) && i < |s.rows|
    ensures var r := s.rows[i];
      && (r.state == Queued ==> r.runner == None && r.lease == None && r.attempts < r.maxAttempts)
      && (r.state == Running ==> r.runner != None && r.lease != None && 1 <= r.attempts <= r.maxAttempts)
      && (r.finishedAt != None <==> r.state == Succeeded || r.state == Failed)
      && r.attempts <= r.maxAttempts
      && (r.attempts == 0 <==> r.startedAt == None)
  {
    ReachableInv(s, top, steps);
    assert Shape(s.rows[i]);
  }

  /** Conservation and bounded work, however runners crash: every row inserted is
      queued, running, succeeded or failed; attempts add up to the claims made; each
      claim ended in one requeue, finish or lease failure or is running now; and the
      claims never exceed the sum of max_attempts, nor the state changes twice that,
      so with a common bound m, N rows see at most m N claims and 2 m N changes. */
  lemma Conservation(s: Sys, top: nat, steps: seq<Step>)
    requires Reachable(s, steps) && Capped(steps, top)
    ensures |s.rows| == Count(s.rows, L.IsState(Queued)) + Count(s.rows, L.IsState(Running))
                        + Count(s.rows, L.IsState(Succeeded)) + Count(s.rows, L.IsState(Failed))
    ensures Sum(s.rows, L.AttemptsOf()) == Count(s.log, L.IsClaim())
    ensures Count(s.log, L.IsClaim()) == Count(s.log, L.IsRequeue()) + Count(s.log, L.IsFinish())
                                         + Count(s.log, L.IsLeaseFail()) + Count(s.rows, L.IsState(Running))
    ensures Count(s.log, L.IsClaim()) <= Sum(s.rows, L.MaxOf()) && |s.log| <= 2 * Sum(s.rows, L.MaxOf())
    ensures forall m: nat :: (forall r :: r in s.rows ==> r.maxAttempts <= m) ==>
      Count(s.log, L.IsClaim()) <= m * |s.rows| && |s.log| <= 2 * (m * |s.rows|)
  {
    ReachableInv(s, top, steps);
    L.BooksAdd(s.rows, s.log);
    forall m: nat | forall r :: r in s.rows ==> r.maxAttempts <= m
      ensures Sum(s.rows, L.MaxOf()) <= m * |s.rows|
    {
      SumBound(s.rows, L.MaxOf(), m);
    }
  }

  /** The same books row by row; in particular a row turns terminal at most once. */
  lemma RowBooks(s: Sys, top: nat, steps: seq<Step>, i: nat)
    requires Reachable(s, steps) && Capped(steps, top) && i < |s.rows|
    ensures L.Entries(s.log, i, s.rows[i])
    ensures Count(s.log, L.ClaimsOf(i)) == s.rows[i].attempts
    ensures s.rows[i].attempts == Count(s.log, L.RequeuesOf(i)) + Count(s.log, L.EndsOf(i))
                                  + (if s.rows[i].state.Running? then 1 else 0)
    ensures Count(s.log, L.EndsOf(i)) <= 1
  {
    ReachableInv(s, top, steps);
  }

  /* ---- Serial operations as runs ---- */

  /** One claim with nothing else running. */
  function ClaimSteps(c: Claim, i: nat): seq<Step> { [Begin(c), Snapshot, Pick(i), Commit(true)] }

  /** claim_simulation in one go is the lock, snapshot, pick and commit steps in a row. */
  lemma SerialClaimIsRun(s: Sys, c: Claim, i: nat)
    requires Eligible(s.rows, i, c.version, c.cap)
    requires s.lock.Free? && StateOf(s, c.runner).Idle? && c.attended
    ensures var e := L.Claim(i, c.runner, c.now, c.lease);
      Run(s, ClaimSteps(c, i)) == Some(Sys(
        L.RowsAfter(s.rows, e), L.LogAfter(s.log, s.rows, e), Free,
        s.runners[c.runner := Claiming][c.runner := Working(i, s.rows[i].attempts + 1)], s.strays))
  {
    var s1 := Apply(s, Begin(c));
    var s2 := Apply(s1, Snapshot);
    var s3 := Apply(s2, Pick(i));
    var s4 := Apply(s3, Commit(true));
    var t := ClaimSteps(c, i);
    assert t[3..] == [Commit(true)] && t[3..][1..] == [];
    assert Run(s3, t[3..]) == Some(s4);
    assert t[2..][1..] == t[3..];
    assert Run(s2, t[2..]) == Some(s4);
    assert t[1..][1..] == t[2..];
    assert Run(s1, t[1..]) == Some(s4);
  }

  function SweepStep(rows: seq<Row>, now: Time, k: nat): Step
    requires k < |rows|
  {
    if Retryable(rows[k]) then Requeue(k, now) else LeaseFail(k, now)
  }

  /** The steps a whole reaper sweep takes on the rows from k on. */
  function SweepSteps(rows: seq<Row>, now: Time, k: nat): seq<Step>
    requires k <= |rows|
    decreases |rows| - k
  {
    if k == |rows| then []
    else if !Expired(rows[k], now) then SweepSteps(rows, now, k + 1)
    else [SweepStep(rows, now, k)] + SweepSteps(rows, now, k + 1)
  }

  lemma SweepOne(s: Sys, rows: seq<Row>, now: Time, k: nat)
    requires k < |rows| == |s.rows| && s.rows[k] == rows[k] && Expired(rows[k], now)
    ensures Enabled(s, SweepStep(rows, now, k))
    ensures var s' := Apply(s, SweepStep(rows, now, k));
      && s'.rows == s.rows[k := Reaped(rows[k], now)]
      && s'.lock == s.lock && s'.runners == s.runners && s'.strays == s.strays
  {
  }

  /** reap_expired_leases in one go is a run of row steps. */
  lemma {:induction false} SerialSweepIsRun(s: Sys, rows: seq<Row>, now: Time, k: nat)
    requires k <= |rows| == |s.rows| && forall i :: k <= i < |rows| ==> s.rows[i] == rows[i]
    ensures var f := Run(s, SweepSteps(rows, now, k));
      && f.Some? && f.value.lock == s.lock && f.value.runners == s.runners && f.value.strays == s.strays
      && |f.value.rows| == |rows|
      && forall i :: 0 <= i < |rows| ==> f.value.rows[i] == if i < k then s.rows[i] else Reaped(rows[i], now)
    decreases |rows| - k
  {
    if k < |rows| {
      if Expired(rows[k], now) {
        SweepOne(s, rows, now, k);
        var s', rest := Apply(s, SweepStep(rows, now, k)), SweepSteps(rows, now, k + 1);
        assert SweepSteps(rows, now, k)[1..] == rest;
        assert Run(s, SweepSteps(rows, now, k)) == Run(s', rest);
        SerialSweepIsRun(s', rows, now, k + 1);
      } else {
        SerialSweepIsRun(s, rows, now, k + 1);
      }
    }
  }

  lemma {:induction false} RunAppend(s: Sys, a: seq<Step>, b: seq<Step>)
    requires Run(s, a).Some?
    ensures Run(s, a + b) == Run(Run(s, a).value, b)
    decreases |a|
  {
    if a == [] {
      assert a + b == b;
    } else {
      assert (a + b)[1..] == a[1..] + b;
      RunAppend(Apply(s, a[0]), a[1..], b);
    }
  }

  /* ---- Progress ---- */

  /** A runner waits only for a claim that holds the lock. */
  ghost predicate WaitInv(s: Sys) {
    forall r :: r in s.runners && s.runners[r].Claiming? ==>
      !s.lock.Free? && s.lock.c.runner == r && s.lock.c.attended
  }

  lemma StepWait(s: Sys, step: Step)
    requires WaitInv(s) && Enabled(s, step)
    ensures WaitInv(Apply(s, step))
  {
  }

  lemma {:induction false} RunWait(s: Sys, steps: seq<Step>)
    requires WaitInv(s) && Run(s, steps).Some?
    ensures WaitInv(Run(s, steps).value)
    decreases |steps|
  {
    if steps != [] {
      StepWait(s, steps[0]);
      RunWait(Apply(s, steps[0]), steps[1..]);
    }
  }

  /** Every claim is made by runner r, with cap 1, and waited for. */
  predicate Modest(steps: seq<Step>, r: RunnerId) {
    forall j :: 0 <= j < |steps| && steps[j].Begin? ==>
      steps[j].c.runner == r && steps[j].c.cap == 1 && steps[j].c.attended
  }

  lemma ModestAppend(a: seq<Step>, b: seq<Step>, r: RunnerId)
    requires Modest(a, r) && Modest(b, r)
    ensures Modest(a + b, r)
  {
  }

  predicate NoneRunning(rows: seq<Row>) {
    forall i :: 0 <= i < |rows| ==> !rows[i].state.Running?
  }

  predicate Calm(s: Sys, r: RunnerId) {
    s.lock.Free? && StateOf(s, r).Idle? && Shaped(s.rows) && NoneRunning(s.rows)
  }

  /** No lease reaches further. */
  function LatestLease(rows: seq<Row>): (t: Time)
    ensures forall i :: 0 <= i < |rows| && rows[i].lease.Some? ==> rows[i].lease.value <= t
  {
    if rows == [] then 0
    else
      var rest, last := LatestLease(rows[..|rows| - 1]), rows[|rows| - 1];
      assert forall i :: 0 <= i < |rows| - 1 ==> rows[i] == rows[..|rows| - 1][i];
      if last.lease.Some? && last.lease.value > rest then last.lease.value else rest
  }

  /** Whatever holds the lock gives it up ... */
  lemma FreeLock(s: Sys, r: RunnerId) returns (f: Sys, more: seq<Step>)
    requires EpochInv(s) && WaitInv(s)
    ensures Run(s, more) == Some(f) && Modest(more, r)
    ensures f.rows == s.rows && f.lock.Free? && !StateOf(f, r).Claiming?
    ensures StateOf(f, r).Working? ==> StateOf(f, r).row < |f.rows|
  {
    if s.lock.Free? {
      f, more := s, [];
    } else {
      f, more := Apply(s, Rollback), [Rollback];
      assert more[1..] == [];
    }
  }

  /** ... and runner r, if at work, dies. */
  lemma Release(s: Sys, r: RunnerId) returns (f: Sys, more: seq<Step>)
    requires EpochInv(s) && WaitInv(s)
    ensures Run(s, more) == Some(f) && Modest(more, r)
    ensures f.rows == s.rows && f.lock.Free? && StateOf(f, r).Idle?
  {
    f, more := FreeLock(s, r);
    if StateOf(f, r).Working? {
      var a, crash := f, [Crash(r)];
      f := Apply(a, Crash(r));
      assert crash[1..] == [] && Run(a, crash) == Some(f);
      RunAppend(s, more, crash);
      more := more + crash;
    }
  }

  lemma {:induction false} SweepIsModest(rows: seq<Row>, now: Time, k: nat, r: RunnerId)
    requires k <= |rows|
    ensures Modest(SweepSteps(rows, now, k), r)
    decreases |rows| - k
  {
    if k < |rows| { SweepIsModest(rows, now, k + 1, r); }
  }

  /** One late sweep leaves nothing running. */
  lemma SweepCalms(s: Sys, r: RunnerId) returns (f: Sys, more: seq<Step>)
    requires Shaped(s.rows) && s.lock.Free? && StateOf(s, r).Idle?
    ensures Run(s, more) == Some(f) && Modest(more, r) && Calm(f, r) && |f.rows| == |s.rows|
  {
    var now := LatestLease(s.rows) + 1;
    more := SweepSteps(s.rows, now, 0);
    SerialSweepIsRun(s, s.rows, now, 0);
    SweepIsModest(s.rows, now, 0, r);
    f := Run(s, more).value;
    forall i | 0 <= i < |f.rows| ensures Shape(f.rows[i]) && !f.rows[i].state.Running? {
      assert Shape(s.rows[i]) && f.rows[i] == Reaped(s.rows[i], now);
    }
  }

  /** With nothing running any queued row can be claimed ... */
  lemma ClaimOne(s: Sys, c: Claim, i: nat) returns (f: Sys)
    requires Calm(s, c.runner) && i < |s.rows| && s.rows[i].state.Queued?
    requires c.version == s.rows[i].job.version && c.cap == 1 && c.attended
    ensures Run(s, ClaimSteps(c, i)) == Some(f)
    ensures f.lock.Free? && f.rows == s.rows[i := Claimed(s.rows[i], c.runner, c.now, c.lease)]
    ensures Works(f, c.runner) && StateOf(f, c.runner).row == i
  {
    CountZero(s.rows, RunningOf(s.rows[i].job.user));
    assert Eligible(s.rows, i, c.version, c.cap);
    SerialClaimIsRun(s, c, i);
    f := Run(s, ClaimSteps(c, i)).value;
  }

  /** ... and finished. */
  lemma WorkOne(s: Sys, r: RunnerId, i: nat) returns (f: Sys, more: seq<Step>)
    requires Calm(s, r) && i < |s.rows| && s.rows[i].state.Queued?
    ensures Run(s, more) == Some(f) && Modest(more, r) && Calm(f, r)
    ensures |f.rows| == |s.rows| && f.rows[i].state.Terminal()
    ensures forall j :: 0 <= j < |s.rows| && j != i ==> f.rows[j] == s.rows[j]
  {
    var c := Claim(r, s.rows[i].job.version, 1, 0, 0, true);
    var w := ClaimOne(s, c, i);
    assert Shape(s.rows[i]);
    var last := [Finish(r, true, None, 0, true)];
    f := Apply(w, last[0]);
    assert f.rows == s.rows[i := Finished(w.rows[i], true, None, 0)];
    assert last[1..] == [] && Run(w, last) == Some(f);
    RunAppend(s, ClaimSteps(c, i), last);
    more := ClaimSteps(c, i) + last;
  }

  lemma {:induction false} WorkFrom(s: Sys, r: RunnerId, k: nat) returns (f: Sys, more: seq<Step>)
    requires Calm(s, r) && k <= |s.rows| && forall i :: 0 <= i < k ==> s.rows[i].state.Terminal()
    ensures Run(s, more) == Some(f) && Modest(more, r)
    ensures |f.rows| == |s.rows| && forall i :: 0 <= i < |f.rows| ==> f.rows[i].state.Terminal()
    decreases |s.rows| - k
  {
    if k == |s.rows| {
      f, more := s, [];
    } else if s.rows[k].state.Queued? {
      var a, work := WorkOne(s, r, k);
      var rest;
      f, rest := WorkFrom(a, r, k + 1);
      RunAppend(s, work, rest);
      ModestAppend(work, rest, r);
      more := work + rest;
    } else {
      assert !s.rows[k].state.Running?;
      f, more := WorkFrom(s, r, k + 1);
    }
  }

  /** Nothing ever gets stuck: from every reachable state of every run, one runner that
      claims with a cap of one can still bring every row to an end, with no new row. */
  lemma CanComplete(s: Sys, top: nat, steps: seq<Step>, r: RunnerId) returns (f: Sys, more: seq<Step>)
    requires Reachable(s, steps) && Capped(steps, top)
    ensures Run(s, more) == Some(f) && Modest(more, r)
    ensures |f.rows| == |s.rows| && forall i :: 0 <= i < |f.rows| ==> f.rows[i].state.Terminal()
  {
    ReachableInv(s, top, steps);
    RunWait(Init(), steps);
    var a, release := Release(s, r);
    var b, sweep := SweepCalms(a, r);
    var work;
    f, work := WorkFrom(b, r, 0);
    RunAppend(a, sweep, work);
    RunAppend(s, release, sweep + work);
    ModestAppend(sweep, work, r);
    ModestAppend(release, sweep + work, r);
    more := release + (sweep + work);
  }

  /* ---- A stray statement that passes the fence ---- */

  /** The runner moves on, and its lease runs out. */
  function LeaveSteps(c: Claim): seq<Step> { [Abandon(c.runner), Requeue(0, c.now + c.lease + 1)] }

  function StraySteps(sim: NewSim, c: Claim): seq<Step> {
    [Insert(sim, 0)] + (ClaimSteps(c, 0) + (LeaveSteps(c) + ClaimSteps(c, 0)))
  }

  /** The gap is real: a runner claims a row, stops with a finish in flight, its lease
      runs out, it comes back under the same id and claims the row again. The old
      finish now passes the runner_id fence and ends the second claim. */
  lemma StrayFinishLands(sim: NewSim, c: Claim) returns (s: Sys, x: Stray)
    requires !sim.cacheHit && sim.maxAttempts >= 2 && c.version == sim.job.version && c.cap >= 1 && c.attended
    ensures Reachable(s, StraySteps(sim, c)) && AttendedBy(StraySteps(sim, c), c.runner)
    ensures |s.rows| == 1 && s.rows[0].job == sim.job && s.rows[0].attempts == 2 && Owns(s.rows[0], c.runner)
    ensures x in s.strays && x == Stray(c.runner, 0, 1)
    ensures var f := StrayFinish(x, false, None, 0);
      Enabled(s, f) && Apply(s, f).rows[0].state.Failed?
  {
    var q := LoneInsert(sim);
    var a := LoneClaim(q, c);
    s := StrayAndReclaim(a, c);
    x := Stray(c.runner, 0, 1);
    StrayRun(sim, c, q, a, s);
    StrayAttended(sim, c);
    StrayPasses(s, x);
  }

  lemma StrayAttended(sim: NewSim, c: Claim)
    requires c.attended
    ensures AttendedBy(StraySteps(sim, c), c.runner)
  {
    forall j | 0 <= j < |StraySteps(sim, c)| && StraySteps(sim, c)[j].Begin?
      ensures StraySteps(sim, c)[j] == Begin(c)
    {
    }
  }

  lemma StrayRun(sim: NewSim, c: Claim, q: Sys, a: Sys, s: Sys)
    requires Run(Init(), [Insert(sim, 0)]) == Some(q) && Run(q, ClaimSteps(c, 0)) == Some(a)
    requires Run(a, LeaveSteps(c) + ClaimSteps(c, 0)) == Some(s)
    ensures Reachable(s, StraySteps(sim, c))
  {
    RunAppend(q, ClaimSteps(c, 0), LeaveSteps(c) + ClaimSteps(c, 0));
    RunAppend(Init(), [Insert(sim, 0)], ClaimSteps(c, 0) + (LeaveSteps(c) + ClaimSteps(c, 0)));
  }

  lemma StrayPasses(s: Sys, x: Stray)
    requires x in s.strays && x.row < |s.rows| && Owns(s.rows[x.row], x.runner)
    ensures var f := StrayFinish(x, false, None, 0);
      Enabled(s, f) && Apply(s, f).rows[x.row].state.Failed?
  {
  }

  lemma LoneInsert(sim: NewSim) returns (q: Sys)
    ensures Run(Init(), [Insert(sim, 0)]) == Some(q)
    ensures q.rows == [Inserted(sim, 0)] && q.lock.Free? && q.runners == map[] && q.strays == {}
  {
    q := Apply(Init(), Insert(sim, 0));
    assert q.rows == [Inserted(sim, 0)];
    assert [Insert(sim, 0)][1..] == [];
  }

  /** From its first claim on: the runner leaves, is reaped, and claims again. */
  lemma StrayAndReclaim(a: Sys, c: Claim) returns (s: Sys)
    requires |a.rows| == 1 && a.rows[0].state.Running? && a.rows[0].job.version == c.version
    requires a.rows[0].lease == Some(c.now + c.lease) && Retryable(a.rows[0])
    requires a.lock.Free? && StateOf(a, c.runner).Working? && StateOf(a, c.runner).row == 0
    requires c.cap >= 1 && c.attended
    ensures Run(a, LeaveSteps(c) + ClaimSteps(c, 0)) == Some(s)
    ensures s.rows == [Claimed(Requeued(a.rows[0]), c.runner, c.now, c.lease)]
    ensures s.strays == a.strays + {Stray(c.runner, 0, StateOf(a, c.runner).epoch)}
  {
    var d := AbandonAndRequeue(a, c);
    s := LoneClaim(d, c);
    RunAppend(a, LeaveSteps(c), ClaimSteps(c, 0));
  }

  lemma LoneClaim(s: Sys, c: Claim) returns (f: Sys)
    requires |s.rows| == 1 && s.rows[0].state.Queued? && s.rows[0].job.version == c.version
    requires s.lock.Free? && StateOf(s, c.runner).Idle? && c.cap >= 1 && c.attended
    ensures Run(s, ClaimSteps(c, 0)) == Some(f)
    ensures f.rows == [Claimed(s.rows[0], c.runner, c.now, c.lease)] && f.lock.Free? && f.strays == s.strays
    ensures StateOf(f, c.runner) == Working(0, s.rows[0].attempts + 1)
  {
    CountZero(s.rows, RunningOf(s.rows[0].job.user));
    assert Eligible(s.rows, 0, c.version, c.cap);
    SerialClaimIsRun(s, c, 0);
    f := Run(s, ClaimSteps(c, 0)).value;
  }

  lemma AbandonAndRequeue(s: Sys, c: Claim) returns (f: Sys)
    requires |s.rows| == 1 && s.rows[0].state.Running? && Retryable(s.rows[0])
    requires s.rows[0].lease == Some(c.now + c.lease)
    requires s.lock.Free? && StateOf(s, c.runner).Working? && StateOf(s, c.runner).row == 0
    ensures Run(s, LeaveSteps(c)) == Some(f)
    ensures f.rows == [Requeued(s.rows[0])] && f.lock.Free? && StateOf(f, c.runner).Idle?
    ensures f.strays == s.strays + {Stray(c.runner, 0, StateOf(s, c.runner).epoch)}
  {
    var b := Apply(s, Abandon(c.runner));
    f := Apply(b, Requeue(0, c.now + c.lease + 1));
    var two := LeaveSteps(c);
    assert two[1..] == [two[1]] && two[1..][1..] == [];
    assert Run(b, two[1..]) == Some(f);
  }
}

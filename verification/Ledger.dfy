/** The effects statements have on app.simulations, and the books these keep
    balanced. Every statement, run alone or in any interleaving, has one of these
    effects on the committed rows; `log` lists the state changes, oldest first. */
module Ledger {
  import opened Sums
  import opened Simulations

  datatype Effect =
    | Keep
    | Add(sim: NewSim, now: Time)
    | Claim(row: nat, runner: RunnerId, now: Time, lease: int)
    | Renew(row: nat, now: Time, lease: int)
    | Finish(row: nat, ok: bool, error: Option<string>, now: Time)
    | Requeue(row: nat)
    | LeaseFail(row: nat, now: Time)
    | Backfill(row: nat, digests: Digests)

  datatype Event =
    | ClaimEvent(row: nat, runner: RunnerId, epoch: nat)
    | RequeueEvent(row: nat)
    | FinishEvent(row: nat)
    | LeaseFailEvent(row: nat)

  /** The legal from-state of each effect. */
  predicate Allowed(rows: seq<Row>, e: Effect) {
    match e
    case Keep => true
    case Add(_, _) => true
    case Claim(i, _, _, _) => i < |rows| && rows[i].state.Queued?
    case Renew(i, _, _) => i < |rows| && rows[i].state.Running?
    case Finish(i, _, _, _) => i < |rows| && rows[i].state.Running?
    case Requeue(i) => i < |rows| && rows[i].state.Running? && Retryable(rows[i])
    case LeaseFail(i, _) => i < |rows| && rows[i].state.Running? && !Retryable(rows[i])
    case Backfill(i, _) => i < |rows|
  }

  predicate OnRow(e: Effect) { !e.Keep? && !e.Add? }

  predicate InTable(rows: seq<Row>, e: Effect) { OnRow(e) ==> e.row < |rows| }

  function RowAfter(r: Row, e: Effect): Row
    requires OnRow(e)
  {
    match e
    case Claim(_, runner, now, lease) => Claimed(r, runner, now, lease)
    case Renew(_, now, lease) => Renewed(r, now, lease)
    case Finish(_, ok, error, now) => Finished(r, ok, error, now)
    case Requeue(_) => Requeued(r)
    case LeaseFail(_, now) => LeaseFailed(r, now)
    case Backfill(_, d) => Backfilled(r, d)
    case _ => r
  }

  function RowsAfter(rows: seq<Row>, e: Effect): seq<Row>
    requires InTable(rows, e)
  {
    if e.Keep? then rows
    else if e.Add? then rows + [Inserted(e.sim, e.now)]
    else rows[e.row := RowAfter(rows[e.row], e)]
  }

  function EventOf(rows: seq<Row>, e: Effect): Option<Event>
    requires InTable(rows, e)
  {
    match e
    case Claim(i, runner, _, _) => Some(ClaimEvent(i, runner, rows[i].attempts + 1))
    case Requeue(i) => Some(RequeueEvent(i))
    case Finish(i, _, _, _) => Some(FinishEvent(i))
    case LeaseFail(i, _) => Some(LeaseFailEvent(i))
    case _ => None
  }

  function LogAfter(log: seq<Event>, rows: seq<Row>, e: Effect): seq<Event>
    requires InTable(rows, e)
  {
    if EventOf(rows, e).Some? then log + [EventOf(rows, e).value] else log
  }

  /* ---- Row shape and absorbing terminal states ---- */

  lemma EffectShape(rows: seq<Row>, e: Effect)
    requires Shaped(rows) && Allowed(rows, e)
    ensures Shaped(RowsAfter(rows, e)) && Evolves(rows, RowsAfter(rows, e))
  {
    if OnRow(e) { assert Shape(rows[e.row]); }
  }

  /* ---- Potential: how much work is left ---- */

  function Potential(): Row -> int {
    (r: Row) => if r.state.Terminal() then 0 else 2 * (r.maxAttempts - r.attempts) + (if r.state.Running? then 1 else 0)
  }

  /** Every state change uses up potential; nothing but an insert adds any. */
  lemma EventsBurnPotential(rows: seq<Row>, e: Effect)
    requires Shaped(rows) && Allowed(rows, e)
    ensures EventOf(rows, e).Some? ==> Sum(RowsAfter(rows, e), Potential()) < Sum(rows, Potential())
    ensures EventOf(rows, e).None? && !e.Add? ==> Sum(RowsAfter(rows, e), Potential()) == Sum(rows, Potential())
    ensures e.Add? ==>
      Sum(RowsAfter(rows, e), Potential())
        == Sum(rows, Potential()) + (if e.sim.cacheHit then 0 else 2 * e.sim.maxAttempts)
  {
    if OnRow(e) {
      assert Shape(rows[e.row]);
      SumUpdate(rows, e.row, RowAfter(rows[e.row], e), Potential());
    } else if e.Add? {
      SumAppend(rows, Inserted(e.sim, e.now), Potential());
    }
  }

  /* ---- Books ---- */

  function IsClaim(): Event -> bool { (e: Event) => e.ClaimEvent? }
  function IsRequeue(): Event -> bool { (e: Event) => e.RequeueEvent? }
  function IsFinish(): Event -> bool { (e: Event) => e.FinishEvent? }
  function IsLeaseFail(): Event -> bool { (e: Event) => e.LeaseFailEvent? }
  function IsState(st: State): Row -> bool { (r: Row) => r.state == st }
  function RanToEnd(): Row -> bool { (r: Row) => r.state.Terminal() && r.attempts > 0 }
  function AttemptsOf(): Row -> int { (r: Row) => r.attempts }
  function MaxOf(): Row -> int { (r: Row) => r.maxAttempts }

  /** Totals over the whole table. */
  predicate Balanced(rows: seq<Row>, log: seq<Event>) {
    && Count(log, IsClaim()) == Sum(rows, AttemptsOf())
    && Count(log, IsClaim())
       == Count(log, IsRequeue()) + Count(log, IsFinish()) + Count(log, IsLeaseFail()) + Count(rows, IsState(Running))
    && Count(log, IsFinish()) + Count(log, IsLeaseFail()) == Count(rows, RanToEnd())
  }

  /** State changes so far and potential left, together, stay within two changes for
      each attempt a row is allowed. */
  predicate WithinBudget(rows: seq<Row>, log: seq<Event>) {
    |log| + Sum(rows, Potential()) <= 2 * Sum(rows, MaxOf())
  }

  function One(b: bool): int { if b then 1 else 0 }

  /** What an effect adds to the totals over rows ... */
  lemma RowTotals(rows: seq<Row>, e: Effect)
    requires Shaped(rows) && Allowed(rows, e)
    ensures var rows' := RowsAfter(rows, e);
      && Sum(rows', AttemptsOf()) == Sum(rows, AttemptsOf()) + One(e.Claim?)
      && Count(rows', IsState(Running))
         == Count(rows, IsState(Running)) + One(e.Claim?) - One(e.Requeue? || e.Finish? || e.LeaseFail?)
      && Count(rows', RanToEnd()) == Count(rows, RanToEnd()) + One(e.Finish? || e.LeaseFail?)
  {
    if OnRow(e) {
      var r := RowAfter(rows[e.row], e);
      assert Shape(rows[e.row]);
      SumUpdate(rows, e.row, r, AttemptsOf());
      CountUpdate(rows, e.row, r, IsState(Running));
      CountUpdate(rows, e.row, r, RanToEnd());
    } else if e.Add? {
      var r := Inserted(e.sim, e.now);
      SumAppend(rows, r, AttemptsOf());
      CountAppend(rows, r, IsState(Running));
      CountAppend(rows, r, RanToEnd());
    }
  }

  /** ... and to the totals over the log. */
  lemma LogTotals(rows: seq<Row>, log: seq<Event>, e: Effect)
    requires Allowed(rows, e)
    ensures var log' := LogAfter(log, rows, e);
      && Count(log', IsClaim()) == Count(log, IsClaim()) + One(e.Claim?)
      && Count(log', IsRequeue()) == Count(log, IsRequeue()) + One(e.Requeue?)
      && Count(log', IsFinish()) == Count(log, IsFinish()) + One(e.Finish?)
      && Count(log', IsLeaseFail()) == Count(log, IsLeaseFail()) + One(e.LeaseFail?)
  {
    if EventOf(rows, e).Some? {
      var ev := EventOf(rows, e).value;
      CountAppend(log, ev, IsClaim());
      CountAppend(log, ev, IsRequeue());
      CountAppend(log, ev, IsFinish());
      CountAppend(log, ev, IsLeaseFail());
    }
  }

  lemma EffectBalanced(rows: seq<Row>, log: seq<Event>, e: Effect)
    requires Shaped(rows) && Allowed(rows, e) && Balanced(rows, log)
    ensures Balanced(RowsAfter(rows, e), LogAfter(log, rows, e))
  {
    RowTotals(rows, e);
    LogTotals(rows, log, e);
  }

  lemma EffectWithinBudget(rows: seq<Row>, log: seq<Event>, e: Effect)
    requires Shaped(rows) && Allowed(rows, e) && WithinBudget(rows, log)
    ensures WithinBudget(RowsAfter(rows, e), LogAfter(log, rows, e))
  {
    EventsBurnPotential(rows, e);
    if OnRow(e) {
      SumUpdate(rows, e.row, RowAfter(rows[e.row], e), MaxOf());
    } else if e.Add? {
      SumAppend(rows, Inserted(e.sim, e.now), MaxOf());
    }
  }

  /** Conservation and the work bound, read off balanced books. */
  lemma BooksAdd(rows: seq<Row>, log: seq<Event>)
    requires Shaped(rows) && Balanced(rows, log) && WithinBudget(rows, log)
    ensures |rows| == Count(rows, IsState(Queued)) + Count(rows, IsState(Running))
                      + Count(rows, IsState(Succeeded)) + Count(rows, IsState(Failed))
    ensures Count(log, IsClaim()) <= Sum(rows, MaxOf()) && |log| <= 2 * Sum(rows, MaxOf())
  {
    SumMono(rows, AttemptsOf(), MaxOf());
    SumMono(rows, Potential(), Potential());
    StatesPartition(rows);
  }

  lemma {:induction false} StatesPartition(rows: seq<Row>)
    ensures |rows| == Count(rows, IsState(Queued)) + Count(rows, IsState(Running))
                      + Count(rows, IsState(Succeeded)) + Count(rows, IsState(Failed))
  {
    if rows != [] { StatesPartition(rows[..|rows| - 1]); }
  }

  /* ---- One row's own entries ---- */

  function ClaimsOf(i: nat): Event -> bool { (e: Event) => e.ClaimEvent? && e.row == i }
  function RequeuesOf(i: nat): Event -> bool { (e: Event) => e.RequeueEvent? && e.row == i }
  function EndsOf(i: nat): Event -> bool { (e: Event) => (e.FinishEvent? || e.LeaseFailEvent?) && e.row == i }

  /** The k-th claim of a row has epoch k; each claim is answered by one requeue or
      one end, or is the one now running; a row ends at most once. */
  predicate Entries(log: seq<Event>, i: nat, r: Row) {
    && Count(log, ClaimsOf(i)) == r.attempts
    && Count(log, ClaimsOf(i))
       == Count(log, RequeuesOf(i)) + Count(log, EndsOf(i)) + (if r.state.Running? then 1 else 0)
    && Count(log, EndsOf(i)) == (if r.state.Terminal() && r.attempts > 0 then 1 else 0)
  }

  predicate NoEntries(log: seq<Event>, i: nat) {
    Count(log, ClaimsOf(i)) == Count(log, RequeuesOf(i)) == Count(log, EndsOf(i)) == 0
  }

  /** Claim epochs never exceed the row's attempts, and a running row's current
      owner and epoch are on record. */
  ghost predicate Recorded(rows: seq<Row>, log: seq<Event>) {
    && (forall ev :: ev in log && ev.ClaimEvent? ==> ev.row < |rows| && 1 <= ev.epoch <= rows[ev.row].attempts)
    && (forall i :: 0 <= i < |rows| && rows[i].state.Running? && rows[i].runner.Some? ==>
          ClaimEvent(i, rows[i].runner.value, rows[i].attempts) in log)
  }

  ghost predicate Booked(rows: seq<Row>, log: seq<Event>) {
    && (forall ev :: ev in log ==> ev.row < |rows|)
    && (forall i :: 0 <= i < |rows| ==> Entries(log, i, rows[i]))
    && Recorded(rows, log)
  }

  lemma EntriesAppend(log: seq<Event>, ev: Event, i: nat)
    ensures Count(log + [ev], ClaimsOf(i)) == Count(log, ClaimsOf(i)) + (if ClaimsOf(i)(ev) then 1 else 0)
    ensures Count(log + [ev], RequeuesOf(i)) == Count(log, RequeuesOf(i)) + (if RequeuesOf(i)(ev) then 1 else 0)
    ensures Count(log + [ev], EndsOf(i)) == Count(log, EndsOf(i)) + (if EndsOf(i)(ev) then 1 else 0)
  {
    CountAppend(log, ev, ClaimsOf(i));
    CountAppend(log, ev, RequeuesOf(i));
    CountAppend(log, ev, EndsOf(i));
  }

  lemma UnbookedRow(log: seq<Event>, i: nat)
    requires forall ev :: ev in log ==> ev.row < i
    ensures NoEntries(log, i)
  {
    CountZero(log, ClaimsOf(i));
    CountZero(log, RequeuesOf(i));
    CountZero(log, EndsOf(i));
  }

  lemma EffectEntries(rows: seq<Row>, log: seq<Event>, e: Effect, i: nat)
    requires Allowed(rows, e) && i < |rows| && Shape(rows[i]) && Entries(log, i, rows[i])
    ensures Entries(LogAfter(log, rows, e), i, RowsAfter(rows, e)[i])
  {
    if EventOf(rows, e).Some? { EntriesAppend(log, EventOf(rows, e).value, i); }
    if OnRow(e) && e.row == i {
      assert RowsAfter(rows, e)[i] == RowAfter(rows[i], e);
    } else {
      assert RowsAfter(rows, e)[i] == rows[i];
    }
  }

  lemma EffectRecorded(rows: seq<Row>, log: seq<Event>, e: Effect)
    requires Shaped(rows) && Allowed(rows, e) && Recorded(rows, log)
    ensures Recorded(RowsAfter(rows, e), LogAfter(log, rows, e))
  {
    var rows', log' := RowsAfter(rows, e), LogAfter(log, rows, e);
    EffectShape(rows, e);
    forall ev | ev in log' && ev.ClaimEvent? ensures ev.row < |rows'| && 1 <= ev.epoch <= rows'[ev.row].attempts {
      if ev in log { assert RowEvolves(rows[ev.row], rows'[ev.row]); }
    }
    forall i | 0 <= i < |rows'| && rows'[i].state.Running? && rows'[i].runner.Some?
      ensures ClaimEvent(i, rows'[i].runner.value, rows'[i].attempts) in log'
    {
      if i < |rows| && rows[i].state.Running? {
        assert ClaimEvent(i, rows[i].runner.value, rows[i].attempts) in log;
      }
    }
  }

  lemma EffectBooked(rows: seq<Row>, log: seq<Event>, e: Effect)
    requires Shaped(rows) && Allowed(rows, e) && Booked(rows, log)
    ensures Booked(RowsAfter(rows, e), LogAfter(log, rows, e))
  {
    var rows', log' := RowsAfter(rows, e), LogAfter(log, rows, e);
    EffectRecorded(rows, log, e);
    forall i | 0 <= i < |rows'| ensures Entries(log', i, rows'[i]) {
      AnyEntries(rows, log, e, i);
    }
  }

  lemma AnyEntries(rows: seq<Row>, log: seq<Event>, e: Effect, i: nat)
    requires Shaped(rows) && Allowed(rows, e) && i < |RowsAfter(rows, e)|
    requires forall ev :: ev in log ==> ev.row < |rows|
    requires i < |rows| ==> Entries(log, i, rows[i])
    ensures Entries(LogAfter(log, rows, e), i, RowsAfter(rows, e)[i])
  {
    if i == |rows| {
      UnbookedRow(log, i);
    } else {
      assert Shape(rows[i]);
      EffectEntries(rows, log, e, i);
    }
  }
}

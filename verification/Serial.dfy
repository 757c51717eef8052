/** Whole runs of transactions that come one after another, from empty tables: batches
    are opened and expanded by their creators, rows move, the reaper and the resync
    sweep come by at any time. The batch table is a materialised view throughout. */
module Serial {
  import opened Sums
  import opened Simulations
  import opened Rollup
  import D = Database
  import L = Ledger

  /** `left[b]` is the number of variants the creator of batch b has yet to insert. */
  datatype Tables = Tables(rows: seq<Row>, batches: seq<Batch>, left: seq<nat>)

  datatype Step =
    | Open(user: UserId, key: Option<string>, total: nat)
    | Statement(e: L.Effect)          // a statement about one row, with its trigger
    | Reap(now: Time, retry: bool)    // one of the reaper's two statements, with its triggers
    | Resync

  predicate Enabled(t: Tables, step: Step) {
    && |t.left| == |t.batches|
    && match step
    case Open(_, _, total) => total >= 1
    case Statement(e) =>
      && L.Allowed(t.rows, e)
      && (e.Add? && e.sim.job.batch.Some? ==>
            e.sim.job.batch.value < |t.batches| && t.left[e.sim.job.batch.value] > 0)
    case Reap(_, _) => true
    case Resync => true
  }

  function RowsAfter(t: Tables, step: Step): seq<Row>
    requires Enabled(t, step)
  {
    match step
    case Statement(e) => L.RowsAfter(t.rows, e)
    case Reap(now, retry) => seq(|t.rows|, i requires 0 <= i < |t.rows| => D.Pass(t.rows[i], now, retry))
    case _ => t.rows
  }

  /** The triggers of a statement recompute exactly the batches it hit. */
  function RolledUp(rows: seq<Row>, batches: seq<Batch>, rows': seq<Row>): seq<Batch> {
    seq(|batches|, b requires 0 <= b < |batches| =>
      if Hit(rows, rows', b) then Synced(batches[b], rows', b) else batches[b])
  }

  function BatchesAfter(t: Tables, step: Step): seq<Batch>
    requires Enabled(t, step)
  {
    match step
    case Open(user, key, total) => t.batches + [Batch(user, key, total, View(0, 0, Expanding))]
    case Resync => seq(|t.batches|, b requires 0 <= b < |t.batches| => D.Repaired(t.rows, t.batches[b], b))
    case _ => RolledUp(t.rows, t.batches, RowsAfter(t, step))
  }

  function LeftAfter(t: Tables, step: Step): seq<nat>
    requires Enabled(t, step)
  {
    if step.Open? then t.left + [step.total]
    else if step.Statement? && step.e.Add? && step.e.sim.job.batch.Some? then
      var b := step.e.sim.job.batch.value;
      t.left[b := t.left[b] - 1]
    else t.left
  }

  function Apply(t: Tables, step: Step): Tables
    requires Enabled(t, step)
  {
    Tables(RowsAfter(t, step), BatchesAfter(t, step), LeftAfter(t, step))
  }

  function Run(t: Tables, steps: seq<Step>): Option<Tables>
    decreases |steps|
  {
    if steps == [] then Some(t)
    else if Enabled(t, steps[0]) then Run(Apply(t, steps[0]), steps[1..])
    else None
  }

  predicate Reachable(t: Tables, steps: seq<Step>) { Run(Tables([], [], []), steps) == Some(t) }

  /* ---- The invariant ---- */

  /** What is inserted of a batch and what is left add up to its total. */
  predicate Accounted(rows: seq<Row>, b: nat, total: nat, left: nat) {
    total >= 1 && Count(Children(rows, b), Present()) + left == total
  }

  predicate Owned(rows: seq<Row>, batches: seq<Batch>) {
    forall i :: 0 <= i < |rows| && rows[i].job.batch.Some? ==> rows[i].job.batch.value < |batches|
  }

  ghost predicate Inv(t: Tables) {
    && Shaped(t.rows) && Exact(t.rows, t.batches) && Owned(t.rows, t.batches) && |t.left| == |t.batches|
    && forall b :: 0 <= b < |t.batches| ==> Accounted(t.rows, b, t.batches[b].total, t.left[b])
  }

  /** Rows evolve, and batches are never dropped or given another total. */
  predicate Grows(t: Tables, t': Tables) {
    && Evolves(t.rows, t'.rows) && |t.batches| <= |t'.batches|
    && forall b :: 0 <= b < |t.batches| ==> t'.batches[b].total == t.batches[b].total
  }

  lemma StepRows(t: Tables, step: Step)
    requires Shaped(t.rows) && Enabled(t, step)
    ensures Shaped(RowsAfter(t, step)) && Evolves(t.rows, RowsAfter(t, step))
  {
    match step
    case Statement(e) => L.EffectShape(t.rows, e);
    case Reap(now, retry) => D.PassShape(t.rows, RowsAfter(t, step), now, retry);
    case _ =>
  }

  lemma StepExact(t: Tables, step: Step)
    requires Inv(t) && Enabled(t, step)
    ensures Exact(RowsAfter(t, step), BatchesAfter(t, step))
  {
    StepRows(t, step);
    match step
    case Open(_, _, total) => D.NoChildren(Children(t.rows, |t.batches|), total);
    case Resync => D.ResyncIsIdle(t.rows, t.batches);
    case _ => RolledKeepsExact(t.rows, t.batches, RowsAfter(t, step), BatchesAfter(t, step));
  }

  /** Rows that stay in their place keep their batch's count of children. */
  lemma SamePresent(rows: seq<Row>, rows': seq<Row>, b: nat)
    requires |rows'| == |rows| && Evolves(rows, rows')
    ensures Count(Children(rows', b), Present()) == Count(Children(rows, b), Present())
  {
    var a, c := Children(rows, b), Children(rows', b);
    forall j | 0 <= j < |a| ensures Present()(a[j]) <==> Present()(c[j]) {
      assert RowEvolves(rows[j], rows'[j]);
    }
    CountSame(a, Present(), c, Present());
  }

  lemma AddPresent(rows: seq<Row>, r: Row, b: nat)
    ensures Count(Children(rows + [r], b), Present())
         == Count(Children(rows, b), Present()) + (if r.job.batch == Some(b) then 1 else 0)
  {
    var slot := if r.job.batch == Some(b) then Some(r.state) else None;
    assert Children(rows + [r], b) == Children(rows, b) + [slot];
    CountAppend(Children(rows, b), slot, Present());
  }

  /** A new batch starts expanding, without children, under its user and key. */
  lemma OpensEmpty(t: Tables, user: UserId, key: Option<string>, total: nat)
    requires Inv(t) && Enabled(t, Open(user, key, total))
    ensures var t', b := Apply(t, Open(user, key, total)), |t.batches|;
      && t'.rows == t.rows && |t'.batches| == |t'.left| == b + 1 && t'.batches[..b] == t.batches
      && t'.batches[b] == Batch(user, key, total, View(0, 0, Expanding))
      && Accounted(t'.rows, b, total, t'.left[b]) && t'.left[b] == total
  {
    CountZero(Children(t.rows, |t.batches|), Present());
  }

  lemma InsertAccounted(t: Tables, e: L.Effect, b: nat)
    requires Inv(t) && Enabled(t, Statement(e)) && e.Add? && b < |t.batches|
    ensures Accounted(L.RowsAfter(t.rows, e), b, t.batches[b].total, LeftAfter(t, Statement(e))[b])
  {
    assert Accounted(t.rows, b, t.batches[b].total, t.left[b]);
    AddPresent(t.rows, Inserted(e.sim, e.now), b);
  }

  lemma SameTotals(t: Tables, step: Step, b: nat)
    requires Enabled(t, step) && b < |t.batches|
    ensures |t.batches| <= |BatchesAfter(t, step)| && BatchesAfter(t, step)[b].total == t.batches[b].total
    ensures |LeftAfter(t, step)| == |BatchesAfter(t, step)|
  {
  }

  lemma OldAccounted(t: Tables, step: Step, b: nat)
    requires Inv(t) && Enabled(t, step) && b < |t.batches|
    ensures |LeftAfter(t, step)| == |BatchesAfter(t, step)|
    ensures Accounted(RowsAfter(t, step), b, t.batches[b].total, LeftAfter(t, step)[b])
  {
    SameTotals(t, step, b);
    assert Accounted(t.rows, b, t.batches[b].total, t.left[b]);
    if step.Statement? && step.e.Add? {
      InsertAccounted(t, step.e, b);
    } else {
      StepRows(t, step);
      SamePresent(t.rows, RowsAfter(t, step), b);
    }
  }

  lemma StepAccounted(t: Tables, step: Step, b: nat)
    requires Inv(t) && Enabled(t, step) && b < |BatchesAfter(t, step)|
    ensures |LeftAfter(t, step)| == |BatchesAfter(t, step)|
    ensures Accounted(RowsAfter(t, step), b, BatchesAfter(t, step)[b].total, LeftAfter(t, step)[b])
  {
    if b < |t.batches| {
      SameTotals(t, step, b);
      OldAccounted(t, step, b);
    } else {
      OpensEmpty(t, step.user, step.key, step.total);
    }
  }

  lemma StepOwned(t: Tables, step: Step)
    requires Inv(t) && Enabled(t, step)
    ensures Owned(RowsAfter(t, step), BatchesAfter(t, step))
  {
    var rows' := RowsAfter(t, step);
    StepRows(t, step);
    forall i | 0 <= i < |rows'| && rows'[i].job.batch.Some?
      ensures rows'[i].job.batch.value < |BatchesAfter(t, step)|
    {
      if i < |t.rows| { assert RowEvolves(t.rows[i], rows'[i]); }
    }
  }

  lemma StepInv(t: Tables, step: Step)
    requires Inv(t) && Enabled(t, step)
    ensures Inv(Apply(t, step)) && Grows(t, Apply(t, step))
  {
    StepRows(t, step);
    StepExact(t, step);
    StepOwned(t, step);
    forall b | 0 <= b < |BatchesAfter(t, step)|
      ensures |LeftAfter(t, step)| == |BatchesAfter(t, step)|
      ensures Accounted(RowsAfter(t, step), b, BatchesAfter(t, step)[b].total, LeftAfter(t, step)[b])
    {
      StepAccounted(t, step, b);
    }
  }

  lemma {:induction false} RunInv(t: Tables, steps: seq<Step>)
    requires Inv(t) && Run(t, steps).Some?
    ensures Inv(Run(t, steps).value) && Grows(t, Run(t, steps).value)
    decreases |steps|
  {
    if steps != [] {
      var t1 := Apply(t, steps[0]);
      StepInv(t, steps[0]);
      RunInv(t1, steps[1..]);
      EvolvesTransitive(t.rows, t1.rows, Run(t, steps).value.rows);
    }
  }

  /* ---- Main results ---- */

  /** After every step of every serial run each batch row equals the recomputation from
      its children, and a resync sweep changes nothing. */
  lemma ViewIsExact(t: Tables, steps: seq<Step>)
    requires Reachable(t, steps)
    ensures Exact(t.rows, t.batches) && Enabled(t, Resync) && Apply(t, Resync) == t
  {
    RunInv(Tables([], [], []), steps);
    D.ResyncIsIdle(t.rows, t.batches);
  }

  /** Between any two points of a serial run every batch moves forward only: from
      expanding through queued and running, in any alternation, to done; neither count
      falls; together they reach the total exactly at done and never pass it; and done
      is final. */
  lemma BatchMovesForward(t: Tables, steps: seq<Step>, more: seq<Step>, b: nat)
    requires Reachable(t, steps) && Run(t, more).Some? && b < |t.batches|
    ensures b < |Run(t, more).value.batches|
    ensures var total, v, v' := t.batches[b].total, t.batches[b].view, Run(t, more).value.batches[b].view;
      && v.phase.Rank() <= v'.phase.Rank() && v.succeeded <= v'.succeeded && v.failed <= v'.failed
      && (v'.phase == Expanding ==> v.phase == Expanding) && (v.phase == Done ==> v'.phase == Done)
      && v'.succeeded + v'.failed <= total && (v'.phase.Done? <==> v'.succeeded + v'.failed == total)
      && (v.phase.Done? ==> v' == v)
  {
    RunInv(Tables([], [], []), steps);
    RunInv(t, more);
    var t' := Run(t, more).value;
    assert Accounted(t'.rows, b, t'.batches[b].total, t'.left[b]);
    SerialProgress(t.rows, t.batches, t'.rows, t'.batches, b);
  }

  /** In every state of a serial run, in every phase, the counts of a batch are the
      numbers of its succeeded and failed children. */
  lemma CountsMean(t: Tables, steps: seq<Step>, b: nat)
    requires Reachable(t, steps) && b < |t.batches|
    ensures t.batches[b].view.succeeded
         == |set i | 0 <= i < |t.rows| && t.rows[i].job.batch == Some(b) && t.rows[i].state == Succeeded|
    ensures t.batches[b].view.failed
         == |set i | 0 <= i < |t.rows| && t.rows[i].job.batch == Some(b) && t.rows[i].state == Failed|
  {
    ViewIsExact(t, steps);
    RecomputeMeans(t.rows, b, t.batches[b].total);
  }

  /** In every state of a serial run each batch state means what it says of the
      children, and the batch is expanding exactly while its creator has variants left. */
  lemma StateMeans(t: Tables, steps: seq<Step>, b: nat)
    requires Reachable(t, steps) && b < |t.batches|
    ensures |t.left| == |t.batches|
    ensures var slots, phase := Children(t.rows, b), t.batches[b].view.phase;
      && (phase.Expanding? <==> t.left[b] > 0)
      && (phase.Done? <==> t.left[b] == 0 && forall x :: x in slots && x.Some? ==> x.value.Terminal())
      && (phase.Active? <==> t.left[b] == 0 && Some(Running) in slots)
      && (phase.Waiting? <==> t.left[b] == 0 && Some(Queued) in slots && Some(Running) !in slots)
  {
    RunInv(Tables([], [], []), steps);
    assert Accounted(t.rows, b, t.batches[b].total, t.left[b]);
    PhaseMeans(Children(t.rows, b), t.batches[b].total);
  }
}

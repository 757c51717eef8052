/** The value app.sync_batch_counts writes into a batch row, as a function of the
    child states it can see. A slot is None where no child row is visible. */
module Rollup {
  import opened Sums
  import opened Simulations

  type Slot = Option<State>

  datatype Phase = Expanding | Waiting | Active | Done {
    /** Expanding, then queued or running in any alternation, then done. */
    function Rank(): nat {
      match this
      case Expanding => 0
      case Waiting => 1
      case Active => 1
      case Done => 2
    }
  }

  datatype View = View(succeeded: nat, failed: nat, phase: Phase)

  function Present(): Slot -> bool { (x: Slot) => x.Some? }
  function Is(st: State): Slot -> bool { (x: Slot) => x == Some(st) }
  function Ended(): Slot -> bool { (x: Slot) => x.Some? && x.value.Terminal() }
  function Pending(): Slot -> bool { (x: Slot) => x.Some? && !x.value.Terminal() }

  /** The CASE expression of the trigger, on the five counts of its sub-select. */
  function Judge(inserted: nat, succeeded: nat, failed: nat, done: nat, running: nat, total: nat): View {
    View(succeeded, failed,
         if inserted < total then Expanding
         else if total > 0 && done >= total then Done
         else if running > 0 then Active
         else Waiting)
  }

  function Recompute(slots: seq<Slot>, total: nat): View {
    Judge(Count(slots, Present()), Count(slots, Is(Succeeded)), Count(slots, Is(Failed)),
          Count(slots, Ended()), Count(slots, Is(Running)), total)
  }

  /** The children of batch b among the rows of the table, by row position. */
  function Children(rows: seq<Row>, b: nat): (slots: seq<Slot>)
    ensures |slots| == |rows|
    ensures forall i :: 0 <= i < |rows| ==>
      slots[i] == if rows[i].job.batch == Some(b) then Some(rows[i].state) else None
  {
    seq(|rows|, i requires 0 <= i < |rows| => if rows[i].job.batch == Some(b) then Some(rows[i].state) else None)
  }

  predicate AllEnded(slots: seq<Slot>) {
    forall i :: 0 <= i < |slots| ==> Ended()(slots[i])
  }

  /** Terminal children are exactly the succeeded and the failed ones, and are present. */
  lemma EndedSplits(slots: seq<Slot>)
    ensures Count(slots, Ended()) == Count(slots, Is(Succeeded)) + Count(slots, Is(Failed))
    ensures Count(slots, Ended()) <= Count(slots, Present())
  {
    CountSplit(slots, Ended(), Is(Succeeded), Is(Failed));
    CountMono(slots, Ended(), slots, Present());
  }

  /** While a batch has no more children than its total, it is done exactly when
      succeeded + failed has reached the total, and otherwise never above it. */
  lemma DoneIffCountsReachTotal(slots: seq<Slot>, total: nat)
    requires 1 <= total && Count(slots, Present()) <= total
    ensures var v := Recompute(slots, total);
      v.succeeded + v.failed <= total && (v.phase.Done? <==> v.succeeded + v.failed == total)
  {
    EndedSplits(slots);
  }

  /** With one slot per declared variant, done means every child is there and terminal. */
  lemma DoneIffAllEnded(slots: seq<Slot>, total: nat)
    requires 1 <= total == |slots|
    ensures Recompute(slots, total).phase.Done? <==> AllEnded(slots)
  {
    EndedSplits(slots);
    CountAll(slots, Ended());
    CountAll(slots, Present());
  }

  lemma PendingSplits(slots: seq<Slot>)
    ensures Count(slots, Present()) == Count(slots, Ended()) + Count(slots, Pending())
    ensures Count(slots, Pending()) == Count(slots, Is(Queued)) + Count(slots, Is(Running))
  {
    CountSplit(slots, Present(), Ended(), Pending());
    CountSplit(slots, Pending(), Is(Queued), Is(Running));
  }

  /** The trigger's counts as sets of child rows. */
  lemma ChildrenCounts(rows: seq<Row>, b: nat, st: State)
    ensures Count(Children(rows, b), Present()) == |set i | 0 <= i < |rows| && rows[i].job.batch == Some(b)|
    ensures Count(Children(rows, b), Is(st))
         == |set i | 0 <= i < |rows| && rows[i].job.batch == Some(b) && rows[i].state == st|
  {
    var slots := Children(rows, b);
    CountIsCard(slots, Present(), set i | 0 <= i < |rows| && rows[i].job.batch == Some(b));
    CountIsCard(slots, Is(st), set i | 0 <= i < |rows| && rows[i].job.batch == Some(b) && rows[i].state == st);
  }

  /** What the trigger writes, in every phase: the exact counts, and the state that the
      numbers of children inserted, ended and running call for. */
  lemma RecomputeMeans(rows: seq<Row>, b: nat, total: nat)
    ensures var v := Recompute(Children(rows, b), total);
      var inserted := |set i | 0 <= i < |rows| && rows[i].job.batch == Some(b)|;
      && v.succeeded == |set i | 0 <= i < |rows| && rows[i].job.batch == Some(b) && rows[i].state == Succeeded|
      && v.failed == |set i | 0 <= i < |rows| && rows[i].job.batch == Some(b) && rows[i].state == Failed|
      && (v.phase == Expanding <==> inserted < total)
      && (v.phase == Done <==> 0 < total <= inserted && v.succeeded + v.failed >= total)
      && (v.phase == Active <==>
            inserted >= total && !(0 < total <= v.succeeded + v.failed)
            && exists i :: 0 <= i < |rows| && rows[i].job.batch == Some(b) && rows[i].state == Running)
  {
    ChildrenCounts(rows, b, Succeeded);
    ChildrenCounts(rows, b, Failed);
    EndedSplits(Children(rows, b));
    CountZero(Children(rows, b), Is(Running));
    assert Count(Children(rows, b), Is(Running)) > 0 <==>
           exists i :: 0 <= i < |rows| && rows[i].job.batch == Some(b) && rows[i].state == Running by {
      if i :| 0 <= i < |rows| && rows[i].job.batch == Some(b) && rows[i].state == Running {
        assert Is(Running)(Children(rows, b)[i]);
      }
    }
  }

  /** What each batch state says about the children, while there are no more of them
      than declared: some missing; else none left to do; else some running; else some
      queued and none running. */
  lemma PhaseMeans(slots: seq<Slot>, total: nat)
    requires 1 <= total && Count(slots, Present()) <= total
    ensures var phase := Recompute(slots, total).phase;
      && (phase.Expanding? <==> Count(slots, Present()) < total)
      && (phase.Done? <==> Count(slots, Present()) == total && forall x :: x in slots && x.Some? ==> x.value.Terminal())
      && (phase.Active? <==> Count(slots, Present()) == total && Some(Running) in slots)
      && (phase.Waiting? <==> Count(slots, Present()) == total && Some(Queued) in slots && Some(Running) !in slots)
  {
    PendingSplits(slots);
    CountZero(slots, Is(Running));
    CountZero(slots, Is(Queued));
    CountZero(slots, Pending());
    assert Some(Running) in slots <==> Count(slots, Is(Running)) > 0;
    assert Some(Queued) in slots <==> Count(slots, Is(Queued)) > 0;
  }

  /** Batch progress never goes back while rows evolve: the phase rank and both
      counts are monotone, over one statement or any number of them. */
  lemma PhaseMonotone(rows: seq<Row>, rows': seq<Row>, b: nat, total: nat)
    requires Evolves(rows, rows')
    ensures var v, v' := Recompute(Children(rows, b), total), Recompute(Children(rows', b), total);
      v.phase.Rank() <= v'.phase.Rank() && v.succeeded <= v'.succeeded && v.failed <= v'.failed
  {
    var a, c := Children(rows, b), Children(rows', b);
    forall j | 0 <= j < |a|
      ensures a[j].Some? <==> c[j].Some?
      ensures a[j].Some? && a[j].value.Terminal() ==> a[j] == c[j]
    {
      assert RowEvolves(rows[j], rows'[j]);
    }
    CountMono(a, Present(), c, Present());
    CountMono(a, Ended(), c, Ended());
    CountMono(a, Is(Succeeded), c, Is(Succeeded));
    CountMono(a, Is(Failed), c, Is(Failed));
  }

  /* ---- The resync sweep ---- */

  /** The WHERE clause of ResyncStuckBatches on the counts of a batch's children. */
  predicate Qualifies(slots: seq<Slot>, total: nat) {
    && total > 0 && Count(slots, Present()) >= total
    && Count(slots, Is(Queued)) + Count(slots, Is(Running)) == 0
  }

  /** It holds when all variants are inserted and none of the children is pending. */
  lemma QualifiesMeans(rows: seq<Row>, b: nat, total: nat)
    ensures Qualifies(Children(rows, b), total) <==>
      && 0 < total <= |set i | 0 <= i < |rows| && rows[i].job.batch == Some(b)|
      && forall i :: 0 <= i < |rows| && rows[i].job.batch == Some(b) ==>
           rows[i].state == Succeeded || rows[i].state == Failed
  {
    var slots := Children(rows, b);
    ChildrenCounts(rows, b, Queued);
    CountZero(slots, Is(Queued));
    CountZero(slots, Is(Running));
    if Count(slots, Is(Queued)) + Count(slots, Is(Running)) == 0 {
      forall i | 0 <= i < |rows| && rows[i].job.batch == Some(b)
        ensures rows[i].state == Succeeded || rows[i].state == Failed
      {
        assert !Is(Queued)(slots[i]) && !Is(Running)(slots[i]);
      }
    }
  }

  function Resynced(v: View, slots: seq<Slot>, total: nat): View {
    if !v.phase.Done? && Qualifies(slots, total)
    then View(Count(slots, Is(Succeeded)), Count(slots, Is(Failed)), Done)
    else v
  }

  /** What the sweep writes is the trigger's own recomputation, so on a batch row that
      already equals it the sweep does nothing. */
  lemma ResyncAgreesWithTrigger(slots: seq<Slot>, total: nat)
    ensures Qualifies(slots, total) ==>
      Recompute(slots, total) == View(Count(slots, Is(Succeeded)), Count(slots, Is(Failed)), Done)
    ensures Resynced(Recompute(slots, total), slots, total) == Recompute(slots, total)
  {
    PendingSplits(slots);
  }

  /* ---- Batches and transactions that run one after another ---- */

  datatype Batch = Batch(user: UserId, key: Option<string>, total: nat, view: View)

  /** Every batch row equals the recomputation from its children. */
  predicate Exact(rows: seq<Row>, batches: seq<Batch>) {
    forall b :: 0 <= b < |batches| ==> batches[b].view == Recompute(Children(rows, b), batches[b].total)
  }

  /** Some child of batch b was inserted, or changed state: its trigger fired. */
  predicate Hit(rows: seq<Row>, rows': seq<Row>, b: nat) {
    exists i :: 0 <= i < |rows'| && rows'[i].job.batch == Some(b)
             && (i >= |rows| || rows'[i].state != rows[i].state)
  }

  function Synced(batch: Batch, rows: seq<Row>, b: nat): Batch {
    batch.(view := Recompute(Children(rows, b), batch.total))
  }

  /** The batch table after a statement that took the rows from `rows` to `rows'`:
      exactly the batches hit are recomputed, from the new rows. */
  predicate Rolled(rows: seq<Row>, batches: seq<Batch>, rows': seq<Row>, batches': seq<Batch>) {
    && |batches'| == |batches|
    && forall b :: 0 <= b < |batches| ==>
         batches'[b] == if Hit(rows, rows', b) then Synced(batches[b], rows', b) else batches[b]
  }

  /** A batch not hit has the same children, up to rows of other batches. */
  lemma UnhitSame(rows: seq<Row>, rows': seq<Row>, b: nat, total: nat)
    requires Evolves(rows, rows') && !Hit(rows, rows', b)
    ensures Recompute(Children(rows', b), total) == Recompute(Children(rows, b), total)
  {
    var a, c := Children(rows, b), Children(rows', b);
    forall j | 0 <= j < |c| ensures if j < |a| then a[j] == c[j] else c[j].None? {
      if j < |a| { assert RowEvolves(rows[j], rows'[j]); }
    }
    SameCount(a, c, Present());
    SameCount(a, c, Is(Succeeded));
    SameCount(a, c, Is(Failed));
    SameCount(a, c, Ended());
    SameCount(a, c, Is(Running));
  }

  lemma SameCount(a: seq<Slot>, c: seq<Slot>, p: Slot -> bool)
    requires |a| <= |c| && !p(None)
    requires forall j :: 0 <= j < |c| ==> if j < |a| then a[j] == c[j] else c[j].None?
    ensures Count(a, p) == Count(c, p)
  {
    CountMono(a, p, c, p);
    CountMono(c, p, a, p);
  }

  /** In serial runs the batch table is a materialised view: a statement whose triggers
      recompute just the batches it hits keeps every batch exact. */
  lemma RolledKeepsExact(rows: seq<Row>, batches: seq<Batch>, rows': seq<Row>, batches': seq<Batch>)
    requires Exact(rows, batches) && Evolves(rows, rows') && Rolled(rows, batches, rows', batches')
    ensures Exact(rows', batches')
  {
    forall b | 0 <= b < |batches'| ensures batches'[b].view == Recompute(Children(rows', b), batches'[b].total) {
      if !Hit(rows, rows', b) { UnhitSame(rows, rows', b, batches[b].total); }
    }
  }

  /** Between any two points of a serial run, every batch row moves forward only:
      phase rank and both counts, with done reached exactly when the counts add up to
      the total, as long as no batch gets more children than declared. */
  lemma SerialProgress(rows: seq<Row>, batches: seq<Batch>, rows': seq<Row>, batches': seq<Batch>, b: nat)
    requires Exact(rows, batches) && Exact(rows', batches') && Evolves(rows, rows')
    requires b < |batches| <= |batches'| && batches'[b].total == batches[b].total >= 1
    requires Count(Children(rows', b), Present()) <= batches[b].total
    ensures var v, v' := batches[b].view, batches'[b].view;
      && v.phase.Rank() <= v'.phase.Rank() && v.succeeded <= v'.succeeded && v.failed <= v'.failed
      && v'.succeeded + v'.failed <= batches[b].total
      && (v'.phase.Done? <==> v'.succeeded + v'.failed == batches[b].total)
      && (v.phase.Done? ==> v' == v)
  {
    PhaseMonotone(rows, rows', b, batches[b].total);
    DoneIffCountsReachTotal(Children(rows', b), batches[b].total);
    var a, c := Children(rows, b), Children(rows', b);
    forall j | 0 <= j < |a| && Present()(a[j]) ensures Present()(c[j]) {
      assert RowEvolves(rows[j], rows'[j]);
    }
    CountMono(a, Present(), c, Present());
    DoneIffCountsReachTotal(a, batches[b].total);
  }
}

/** The database as its clients use it when transactions run one after another: one
    method per SQL function or store query, changing the tables in place. Each
    method that changes a child's state fires the rollup trigger for the rows it
    changed, after the statement, as an AFTER ROW trigger does. */
module Database {
  import opened Sums
  import opened Simulations
  import opened Rollup
  import L = Ledger
  import ContentHash

  datatype Variant = Variant(modelRef: string, modelSha: string)

  datatype ExpandSpec = ExpandSpec(batch: nat, user: UserId, version: string, weatherRef: string,
                                   weatherSha: string, priority: int, variants: seq<Variant>)

  /** The rows one of the reaper's two statements is about: the expired ones with an
      attempt left, or the expired ones without. */
  function ExpiredWhere(now: Time, retry: bool): Row -> bool {
    (r: Row) => Expired(r, now) && Retryable(r) == retry
  }

  /** ... and what it makes of them: queued again, or failed. */
  function Pass(r: Row, now: Time, retry: bool): Row {
    if ExpiredWhere(now, retry)(r) then (if retry then Requeued(r) else LeaseFailed(r, now)) else r
  }

  function IsExpired(now: Time): Row -> bool { (r: Row) => Expired(r, now) }

  /** A statement that leaves states and batches of all rows alone fires no trigger. */
  lemma NoHit(rows: seq<Row>, rows': seq<Row>, batches: seq<Batch>)
    requires |rows'| == |rows|
    requires forall i :: 0 <= i < |rows| ==> rows'[i].state == rows[i].state
    ensures Rolled(rows, batches, rows', batches)
  {
  }

  /** What sync_batch_counts makes of the batch table for a child of batch bid. */
  function Counted(rows: seq<Row>, batches: seq<Batch>, bid: Option<nat>): seq<Batch>
    requires bid.Some? ==> bid.value < |batches|
  {
    if bid.None? then batches else batches[bid.value := Synced(batches[bid.value], rows, bid.value)]
  }

  /** A single state change, or a single insert, hits exactly the row's own batch. */
  lemma HitsOwn(rows: seq<Row>, e: L.Effect, b: nat)
    requires L.Allowed(rows, e) && (e.Claim? || e.Finish? || e.Add?)
    ensures Hit(rows, L.RowsAfter(rows, e), b) <==> BatchOf(rows, e) == Some(b)
  {
    var rows' := L.RowsAfter(rows, e);
    var i := if e.Add? then |rows| else e.row;
    assert rows'[i].job.batch == BatchOf(rows, e);
    assert i < |rows| ==> rows'[i].state != rows[i].state;
  }

  function BatchOf(rows: seq<Row>, e: L.Effect): Option<nat>
    requires e.Add? || (L.OnRow(e) && e.row < |rows|)
  {
    if e.Add? then e.sim.job.batch else rows[e.row].job.batch
  }

  lemma OneRowRolls(rows: seq<Row>, batches: seq<Batch>, e: L.Effect)
    requires Shaped(rows) && L.Allowed(rows, e) && (e.Claim? || e.Finish? || e.Add?)
    requires BatchOf(rows, e).Some? ==> BatchOf(rows, e).value < |batches|
    ensures var rows' := L.RowsAfter(rows, e);
      var batches' := Counted(rows', batches, BatchOf(rows, e));
      Rolled(rows, batches, rows', batches') && (Exact(rows, batches) ==> Exact(rows', batches'))
  {
    var rows', bid := L.RowsAfter(rows, e), BatchOf(rows, e);
    forall b: nat ensures Hit(rows, rows', b) <==> bid == Some(b) { HitsOwn(rows, e, b); }
    L.EffectShape(rows, e);
    if Exact(rows, batches) { RolledKeepsExact(rows, batches, rows', Counted(rows', batches, bid)); }
  }

  /** What the resync sweep makes of batch b. */
  function Repaired(rows: seq<Row>, batch: Batch, b: nat): Batch {
    batch.(view := Resynced(batch.view, Children(rows, b), batch.total))
  }

  /** On an exact table the resync sweep repairs nothing and changes nothing. */
  lemma ResyncIsIdle(rows: seq<Row>, batches: seq<Batch>)
    requires Exact(rows, batches)
    ensures Count(Stuck(rows, batches), Yes()) == 0
    ensures forall b :: 0 <= b < |batches| ==> Repaired(rows, batches[b], b) == batches[b]
  {
    CountZero(Stuck(rows, batches), Yes());
    forall b | 0 <= b < |batches|
      ensures !Stuck(rows, batches)[b] && Repaired(rows, batches[b], b) == batches[b]
    {
      ResyncAgreesWithTrigger(Children(rows, b), batches[b].total);
    }
  }

  /** The batches the resync sweep repairs. */
  function Stuck(rows: seq<Row>, batches: seq<Batch>): seq<bool> {
    seq(|batches|, b requires 0 <= b < |batches| =>
      !batches[b].view.phase.Done? && Qualifies(Children(rows, b), batches[b].total))
  }

  function Yes(): bool -> bool { (x: bool) => x }

  /** What Expand inserts for one variant: the cache decides only when the client
      supplied both digests, and it asks whether a result exists, not its verdict. */
  function VariantSim(sha256: string -> string, results: set<string>, spec: ExpandSpec, v: Variant): NewSim {
    var hash := sha256(ContentHash.Payload(v.modelSha, spec.weatherSha, spec.version));
    NewSim(Job(Some(spec.batch), spec.user, spec.version, spec.priority, v.modelRef, spec.weatherRef),
           Digests(StrPtr(v.modelSha), StrPtr(spec.weatherSha), hash),
           v.modelSha != "" && spec.weatherSha != "" && hash in results, DEFAULT_MAX_ATTEMPTS)
  }

  /** The row of one variant, column by column. */
  predicate Materialized(r: Row, sha256: string -> string, results: set<string>, spec: ExpandSpec, v: Variant,
                         now: Time)
  {
    var hash := sha256(v.modelSha + ":" + spec.weatherSha + ":" + spec.version);
    && r.state == (if v.modelSha != "" && spec.weatherSha != "" && hash in results then Succeeded else Queued)
    && r.job == Job(Some(spec.batch), spec.user, spec.version, spec.priority, v.modelRef, spec.weatherRef)
    && r.digests.model == (if v.modelSha == "" then None else Some(v.modelSha))
    && r.digests.weather == (if spec.weatherSha == "" then None else Some(spec.weatherSha))
    && r.digests.hash == hash && r.maxAttempts == 3 && r.createdAt == now
  }

  lemma VariantMeans(sha256: string -> string, results: set<string>, spec: ExpandSpec, v: Variant, now: Time)
    ensures Materialized(Inserted(VariantSim(sha256, results, spec, v), now), sha256, results, spec, v, now)
  {
  }

  class Database {
    var rows: seq<Row>
    var batches: seq<Batch>
    var results: set<string>  // the content hashes of app.results
    const sha256: string -> string

    ghost predicate Valid()
      reads this
    {
      && Shaped(rows)
      && (forall i :: 0 <= i < |rows| && rows[i].job.batch.Some? ==> rows[i].job.batch.value < |batches|)
      && (forall b :: 0 <= b < |batches| ==> batches[b].total >= 1)
    }

    /** The batch table is the materialised view of its children. */
    ghost predicate IsExact()
      reads this
    {
      Exact(rows, batches)
    }

    constructor (sha256: string -> string)
      ensures Valid() && IsExact() && rows == [] && batches == [] && results == {}
      ensures this.sha256 == sha256
    {
      rows, batches, results := [], [], {};
      this.sha256 := sha256;
    }

    /* ---- Batches ---- */

    /** FindBatchByIdempotencyKey: None stands for ErrNotFound. */
    method FindBatchByIdempotencyKey(user: UserId, key: string) returns (found: Option<nat>)
      ensures found.Some? ==>
        found.value < |batches| && batches[found.value].user == user && batches[found.value].key == Some(key)
      ensures found.None? ==>
        forall b :: 0 <= b < |batches| ==> !(batches[b].user == user && batches[b].key == Some(key))
    {
      for b := 0 to |batches|
        invariant forall a :: 0 <= a < b ==> !(batches[a].user == user && batches[a].key == Some(key))
      {
        if batches[b].user == user && batches[b].key == Some(key) { return Some(b); }
      }
      return None;
    }

    /** CreateBatch: None stands for a violation of the unique index on (user, key),
        which NULL keys never violate. */
    method CreateBatch(user: UserId, total: nat, key: Option<string>) returns (id: Option<nat>)
      requires Valid() && total >= 1
      modifies this`batches
      ensures Valid() && (old(IsExact()) ==> IsExact())
      ensures id.None? <==>
        key.Some? && exists b :: 0 <= b < |old(batches)| && old(batches)[b].user == user && old(batches)[b].key == key
      ensures id.None? ==> batches == old(batches)
      ensures id.Some? ==>
        id.value == |old(batches)| && batches == old(batches) + [Batch(user, key, total, View(0, 0, Expanding))]
    {
      if key.Some? {
        var clash := FindBatchByIdempotencyKey(user, key.value);
        if clash.Some? { return None; }
      }
      id := Some(|batches|);
      ghost var slots := Children(rows, |batches|);
      NoChildren(slots, total);
      batches := batches + [Batch(user, key, total, View(0, 0, Expanding))];
    }

    /* ---- The rollup trigger and the resync sweep ---- */

    /** The FILTERed counts of one batch's children. */
    method CountChildren(bid: nat)
      returns (inserted: nat, queued: nat, running: nat, succeeded: nat, failed: nat)
      ensures var slots := Children(rows, bid);
        && inserted == Count(slots, Present()) && queued == Count(slots, Is(Queued))
        && running == Count(slots, Is(Running)) && succeeded == Count(slots, Is(Succeeded))
        && failed == Count(slots, Is(Failed)) && succeeded + failed == Count(slots, Ended())
    {
      ghost var slots := Children(rows, bid);
      inserted, queued, running, succeeded, failed := 0, 0, 0, 0, 0;
      for i := 0 to |rows|
        invariant inserted == Count(slots[..i], Present()) && queued == Count(slots[..i], Is(Queued))
        invariant running == Count(slots[..i], Is(Running)) && succeeded == Count(slots[..i], Is(Succeeded))
        invariant failed == Count(slots[..i], Is(Failed))
      {
        assert slots[..i + 1][..i] == slots[..i];
        if rows[i].job.batch == Some(bid) {
          inserted := inserted + 1;
          match rows[i].state {
            case Queued => queued := queued + 1;
            case Running => running := running + 1;
            case Succeeded => succeeded := succeeded + 1;
            case Failed => failed := failed + 1;
          }
        }
      }
      assert slots[..|rows|] == slots;
      EndedSplits(slots);
    }

    /** app.sync_batch_counts for a row of batch bid. */
    method SyncBatchCounts(bid: Option<nat>)
      requires bid.Some? ==> bid.value < |batches|
      modifies this`batches
      ensures batches == Counted(rows, old(batches), bid)
      ensures bid.None? ==> batches == old(batches)
      ensures bid.Some? ==>
        var v := batches[bid.value].view;
        var total, inserted := old(batches)[bid.value].total, |set i | 0 <= i < |rows| && rows[i].job.batch == bid|;
        && batches == old(batches)[bid.value := old(batches)[bid.value].(view := v)]
        && v.succeeded == |set i | 0 <= i < |rows| && rows[i].job.batch == bid && rows[i].state == Succeeded|
        && v.failed == |set i | 0 <= i < |rows| && rows[i].job.batch == bid && rows[i].state == Failed|
        && (v.phase == Expanding <==> inserted < total)
        && (v.phase == Done <==> 0 < total <= inserted && v.succeeded + v.failed >= total)
        && (v.phase == Active <==>
              inserted >= total && !(0 < total <= v.succeeded + v.failed)
              && exists i :: 0 <= i < |rows| && rows[i].job.batch == bid && rows[i].state == Running)
    {
      if bid.None? { return; }
      var b := bid.value;
      RecomputeMeans(rows, b, batches[b].total);
      var inserted, queued, running, succeeded, failed := CountChildren(b);
      batches := batches[b := batches[b].(view :=
        Judge(inserted, succeeded, failed, succeeded + failed, running, batches[b].total))];
    }

    /** The AFTER ROW trigger of one row. */
    method FireTrigger(row: nat)
      requires row < |rows| && (rows[row].job.batch.Some? ==> rows[row].job.batch.value < |batches|)
      modifies this`batches
      ensures batches == Counted(rows, old(batches), rows[row].job.batch)
    {
      SyncBatchCounts(rows[row].job.batch);
    }

    /** The triggers of one statement, for the rows it changed, in order. */
    method FireTriggers(changed: seq<nat>)
      requires forall k :: 0 <= k < |changed| ==> changed[k] < |rows|
      requires forall i :: 0 <= i < |rows| && rows[i].job.batch.Some? ==> rows[i].job.batch.value < |batches|
      modifies this`batches
      ensures |batches| == |old(batches)|
      ensures forall b :: 0 <= b < |batches| ==>
        batches[b] == if exists k :: 0 <= k < |changed| && rows[changed[k]].job.batch == Some(b)
                      then Synced(old(batches)[b], rows, b) else old(batches)[b]
    {
      for n := 0 to |changed|
        invariant |batches| == |old(batches)|
        invariant forall b :: 0 <= b < |batches| ==>
          batches[b] == if exists k :: 0 <= k < n && rows[changed[k]].job.batch == Some(b)
                        then Synced(old(batches)[b], rows, b) else old(batches)[b]
      {
        FireTrigger(changed[n]);
      }
    }

    /** ResyncStuckBatches on one batch. */
    method ResyncBatch(b: nat) returns (repaired: bool)
      requires b < |batches|
      modifies this`batches
      ensures batches == old(batches)[b := Repaired(rows, old(batches)[b], b)]
      ensures repaired <==> Stuck(rows, old(batches))[b]
      ensures repaired <==>
        && !old(batches)[b].view.phase.Done?
        && 0 < old(batches)[b].total <= |set i | 0 <= i < |rows| && rows[i].job.batch == Some(b)|
        && forall i :: 0 <= i < |rows| && rows[i].job.batch == Some(b) ==>
             rows[i].state == Succeeded || rows[i].state == Failed
      ensures !repaired ==> batches == old(batches)
      ensures repaired ==>
        var v := batches[b].view;
        && batches == old(batches)[b := old(batches)[b].(view := v)] && v.phase == Done
        && v.succeeded == |set i | 0 <= i < |rows| && rows[i].job.batch == Some(b) && rows[i].state == Succeeded|
        && v.failed == |set i | 0 <= i < |rows| && rows[i].job.batch == Some(b) && rows[i].state == Failed|
    {
      QualifiesMeans(rows, b, batches[b].total);
      ChildrenCounts(rows, b, Succeeded);
      ChildrenCounts(rows, b, Failed);
      var inserted, queued, running, succeeded, failed := CountChildren(b);
      repaired := !batches[b].view.phase.Done? && batches[b].total > 0
                  && inserted >= batches[b].total && queued + running == 0;
      if repaired { batches := batches[b := batches[b].(view := View(succeeded, failed, Done))]; }
    }

    /** ResyncStuckBatches: the number of batches it repaired. */
    method ResyncStuckBatches() returns (n: nat)
      modifies this`batches
      ensures |batches| == |old(batches)|
      ensures forall b :: 0 <= b < |batches| ==> batches[b] == Repaired(rows, old(batches)[b], b)
      ensures n == Count(Stuck(rows, old(batches)), Yes())
      ensures n == |set b | 0 <= b < |batches| && batches[b] != old(batches)[b]|
    {
      n := 0;
      ghost var stuck := Stuck(rows, batches);
      for b := 0 to |batches|
        invariant |batches| == |old(batches)|
        invariant forall a :: 0 <= a < b ==> batches[a] == Repaired(rows, old(batches)[a], a)
        invariant forall a :: b <= a < |batches| ==> batches[a] == old(batches)[a]
        invariant n == Count(stuck[..b], Yes())
      {
        assert stuck[..b + 1][..b] == stuck[..b];
        var repaired := ResyncBatch(b);
        if repaired { n := n + 1; }
      }
      assert stuck[..|batches|] == stuck;
      CountIsCard(stuck, Yes(), set b | 0 <= b < |batches| && batches[b] != old(batches)[b]);
    }

    /* ---- Claiming ---- */

    method CountRunning(u: UserId) returns (n: nat)
      ensures n == RunningCount(rows, u)
      ensures n == |set i | 0 <= i < |rows| && rows[i].job.user == u && rows[i].state.Running?|
    {
      RunningIsCard(rows, u);
      n := 0;
      for i := 0 to |rows|
        invariant n == Count(rows[..i], RunningOf(u))
      {
        assert rows[..i + 1][..i] == rows[..i];
        if rows[i].job.user == u && rows[i].state.Running? { n := n + 1; }
      }
      assert rows[..|rows|] == rows;
    }

    /** The scaler's query: SELECT count(*) FROM app.eligible_simulations. */
    method CountEligible(version: string, cap: int) returns (n: nat)
      ensures n == EligibleDepth(rows, version, cap)
      ensures n ==
        |set i | 0 <= i < |rows| && rows[i].state.Queued? && rows[i].job.version == version
                 && |set j | 0 <= j < |rows| && rows[j].job.user == rows[i].job.user && rows[j].state.Running?| < cap|
    {
      EligibleIsCard(rows, version, cap);
      n := 0;
      for i := 0 to |rows|
        invariant n == Count(rows[..i], EligibleIn(rows, version, cap))
      {
        assert rows[..i + 1][..i] == rows[..i];
        var running := CountRunning(rows[i].job.user);
        if rows[i].state.Queued? && rows[i].job.version == version && running < cap { n := n + 1; }
      }
      assert rows[..|rows|] == rows;
    }

    /** The sub-select of claim_simulation: ORDER BY priority DESC, created_at ASC
        LIMIT 1 over the eligible rows. */
    method SelectClaimable(version: string, cap: int) returns (best: Option<nat>)
      ensures best.Some? ==> best.value < |rows| && Best(rows, best.value, version, cap)
      ensures best.Some? ==>
        forall j :: 0 <= j < |rows| && Eligible(rows, j, version, cap) ==>
          var a, b := rows[best.value], rows[j];
          a.job.priority >= b.job.priority && (a.job.priority == b.job.priority ==> a.createdAt <= b.createdAt)
      ensures best.None? ==> forall i :: 0 <= i < |rows| ==> !Eligible(rows, i, version, cap)
    {
      best := None;
      for i := 0 to |rows|
        invariant best.None? ==> forall j :: 0 <= j < i ==> !Eligible(rows, j, version, cap)
        invariant best.Some? ==> best.value < i && Eligible(rows, best.value, version, cap)
        invariant best.Some? ==>
          forall j :: 0 <= j < i && Eligible(rows, j, version, cap) ==> Precedes(rows[best.value], rows[j])
      {
        var running := CountRunning(rows[i].job.user);
        if rows[i].state.Queued? && rows[i].job.version == version && running < cap {
          if best.None? || !Precedes(rows[best.value], rows[i]) { best := Some(i); }
        }
      }
    }

    /** app.claim_simulation, in one transaction. */
    method ClaimSimulation(runner: RunnerId, version: string, cap: int, lease: int, now: Time)
      returns (claimed: Option<nat>)
      requires Valid()
      modifies this`rows, this`batches
      ensures Valid() && (old(IsExact()) ==> IsExact())
      ensures claimed.None? ==> rows == old(rows) && batches == old(batches)
      ensures claimed.None? ==> forall i :: 0 <= i < |rows| ==> !Eligible(rows, i, version, cap)
      ensures claimed.Some? ==>
        claimed.value < |old(rows)| && Best(old(rows), claimed.value, version, cap)
        && rows == L.RowsAfter(old(rows), L.Claim(claimed.value, runner, now, lease))
        && var r := old(rows)[claimed.value];
           rows == old(rows)[claimed.value := r.(state := Running, runner := Some(runner), lease := Some(now + lease),
                                                 attempts := r.attempts + 1, startedAt := Some(now))]
      ensures Rolled(old(rows), old(batches), rows, batches) && Evolves(old(rows), rows)
    {
      claimed := SelectClaimable(version, cap);
      if claimed.Some? {
        ChangeState(L.Claim(claimed.value, runner, now, lease));
      } else {
        NoHit(rows, rows, batches);
      }
    }

    /** One row's UPDATE .. SET state, with its trigger. */
    method ChangeState(e: L.Effect)
      requires Valid() && L.Allowed(rows, e) && (e.Claim? || e.Finish?)
      modifies this`rows, this`batches
      ensures Valid() && (old(IsExact()) ==> IsExact())
      ensures rows == L.RowsAfter(old(rows), e)
      ensures Rolled(old(rows), old(batches), rows, batches) && Evolves(old(rows), rows)
    {
      L.EffectShape(rows, e);
      OneRowRolls(rows, batches, e);
      rows := rows[e.row := L.RowAfter(rows[e.row], e)];
      FireTrigger(e.row);
    }

    /* ---- Heartbeat and finish, fenced on runner_id ---- */

    /** app.renew_lease: rows affected. An unknown id matches no row. */
    method RenewLease(id: nat, runner: RunnerId, lease: int, now: Time) returns (n: nat)
      requires Valid()
      modifies this`rows
      ensures Valid() && (old(IsExact()) ==> IsExact())
      ensures n == if id < |old(rows)| && old(rows)[id].state == Running && old(rows)[id].runner == Some(runner)
                   then 1 else 0
      ensures rows == if n == 1 then L.RowsAfter(old(rows), L.Renew(id, now, lease)) else old(rows)
      ensures n == 1 ==> rows == old(rows)[id := old(rows)[id].(lease := Some(now + lease))]
      ensures Evolves(old(rows), rows)
    {
      n := 0;
      if id < |rows| && Owns(rows[id], runner) {
        ghost var before := rows;
        L.EffectShape(rows, L.Renew(id, now, lease));
        rows := rows[id := Renewed(rows[id], now, lease)];
        n := 1;
        NoHit(before, rows, batches);
        if Exact(before, batches) { RolledKeepsExact(before, batches, rows, batches); }
      }
    }

    /** app.finish_simulation: rows affected. */
    method FinishSimulation(id: nat, runner: RunnerId, succeeded: bool, error: Option<string>, now: Time)
      returns (n: nat)
      requires Valid()
      modifies this`rows, this`batches
      ensures Valid() && (old(IsExact()) ==> IsExact())
      ensures n == if id < |old(rows)| && old(rows)[id].state == Running && old(rows)[id].runner == Some(runner)
                   then 1 else 0
      ensures rows == if n == 1 then L.RowsAfter(old(rows), L.Finish(id, succeeded, error, now)) else old(rows)
      ensures n == 1 ==>
        rows == old(rows)[id := old(rows)[id].(state := if succeeded then Succeeded else Failed,
                                               finishedAt := Some(now), error := error, lease := None)]
      ensures Rolled(old(rows), old(batches), rows, batches) && Evolves(old(rows), rows)
    {
      n := 0;
      if id < |rows| && Owns(rows[id], runner) {
        ChangeState(L.Finish(id, succeeded, error, now));
        n := 1;
      } else {
        NoHit(rows, rows, batches);
      }
    }

    /** The runner's unfenced hash back-fill. */
    method BackfillHashes(id: nat, digests: Digests)
      requires Valid()
      modifies this`rows
      ensures Valid() && (old(IsExact()) ==> IsExact())
      ensures rows == if id < |old(rows)| then L.RowsAfter(old(rows), L.Backfill(id, digests)) else old(rows)
      ensures id < |old(rows)| ==> rows == old(rows)[id := old(rows)[id].(digests := digests)]
      ensures Evolves(old(rows), rows)
    {
      if id < |rows| {
        ghost var before := rows;
        L.EffectShape(rows, L.Backfill(id, digests));
        rows := rows[id := Backfilled(rows[id], digests)];
        NoHit(before, rows, batches);
        if Exact(before, batches) { RolledKeepsExact(before, batches, rows, batches); }
      }
    }

    /* ---- The reaper ---- */

    /** One of the two statements of app.reap_expired_leases, with its triggers. */
    method ReapPass(now: Time, retry: bool) returns (n: nat)
      requires Valid()
      modifies this`rows, this`batches
      ensures Valid() && Evolves(old(rows), rows) && Rolled(old(rows), old(batches), rows, batches)
      ensures |rows| == |old(rows)|
      ensures forall i :: 0 <= i < |rows| ==> rows[i] == Pass(old(rows)[i], now, retry)
      ensures n == Count(old(rows), ExpiredWhere(now, retry))
    {
      ghost var before := rows;
      var changed := UpdateExpired(now, retry);
      n := |changed|;
      PassShape(before, rows, now, retry);
      FireTriggers(changed);
      PassRolls(before, old(batches), rows, batches, changed);
    }

    /** The UPDATE itself: the ids of the rows it changed. */
    method UpdateExpired(now: Time, retry: bool) returns (changed: seq<nat>)
      modifies this`rows
      ensures |rows| == |old(rows)|
      ensures forall i :: 0 <= i < |rows| ==> rows[i] == Pass(old(rows)[i], now, retry)
      ensures |changed| == Count(old(rows), ExpiredWhere(now, retry))
      ensures forall k :: 0 <= k < |changed| ==> changed[k] < |rows|
      ensures forall i: nat :: i < |rows| ==> (i in changed <==> ExpiredWhere(now, retry)(old(rows)[i]))
    {
      changed := [];
      for i := 0 to |rows|
        invariant |rows| == |old(rows)| && |changed| == Count(old(rows)[..i], ExpiredWhere(now, retry))
        invariant forall j :: 0 <= j < i ==> rows[j] == Pass(old(rows)[j], now, retry)
        invariant forall j :: i <= j < |rows| ==> rows[j] == old(rows)[j]
        invariant forall k :: 0 <= k < |changed| ==> changed[k] < i
        invariant forall j: nat :: j < i ==> (j in changed <==> ExpiredWhere(now, retry)(old(rows)[j]))
      {
        assert old(rows)[..i + 1][..i] == old(rows)[..i];
        if Expired(rows[i], now) && Retryable(rows[i]) == retry {
          rows := rows[i := if retry then Requeued(rows[i]) else LeaseFailed(rows[i], now)];
          changed := changed + [i];
        }
      }
      assert old(rows)[..|rows|] == old(rows);
    }

    /** app.reap_expired_leases. Afterwards no running row is expired, and the two counts
        partition the rows that were. */
    method ReapExpiredLeases(now: Time) returns (requeued: nat, failed: nat)
      requires Valid()
      modifies this`rows, this`batches
      ensures Valid() && (old(IsExact()) ==> IsExact()) && Evolves(old(rows), rows)
      ensures |rows| == |old(rows)| && forall i :: 0 <= i < |rows| ==> rows[i] == Reaped(old(rows)[i], now)
      ensures forall i :: 0 <= i < |rows| ==>
        var r := old(rows)[i];
        rows[i] == if !(r.state.Running? && r.lease.Some? && r.lease.value < now) then r
                   else if r.attempts < r.maxAttempts then r.(state := Queued, runner := None, lease := None)
                   else r.(state := Failed, error := Some("lease expired"), finishedAt := Some(now))
      ensures requeued == Count(old(rows), ExpiredWhere(now, true))
      ensures failed == Count(old(rows), ExpiredWhere(now, false))
      ensures requeued + failed == Count(old(rows), IsExpired(now))
      ensures requeued == |set i | 0 <= i < |old(rows)| && old(rows)[i].state.Running? && rows[i].state.Queued?|
      ensures failed == |set i | 0 <= i < |old(rows)| && old(rows)[i].state.Running? && rows[i].state.Failed?|
      ensures forall i :: 0 <= i < |rows| ==> !Expired(rows[i], now)
    {
      ghost var before, table := rows, batches;
      requeued := ReapPass(now, true);
      ghost var between, table1 := rows, batches;
      failed := ReapPass(now, false);
      TwoPasses(before, between, rows, now);
      EvolvesTransitive(before, between, rows);
      if Exact(before, table) {
        RolledKeepsExact(before, table, between, table1);
        RolledKeepsExact(between, table1, rows, batches);
      }
    }

    /* ---- Submission ---- */

    /** InsertSimulation, or None when the batch does not exist (foreign key). */
    method InsertSimulation(p: NewSim, now: Time) returns (id: Option<nat>)
      requires Valid()
      modifies this`rows, this`batches
      ensures Valid() && (old(IsExact()) ==> IsExact())
      ensures id.None? <==> p.job.batch.Some? && p.job.batch.value >= |batches|
      ensures id.None? ==> rows == old(rows) && batches == old(batches)
      ensures id.Some? ==> id.value == |old(rows)| && rows == L.RowsAfter(old(rows), L.Add(p, now))
      ensures id.Some? ==>
        rows == old(rows) + [Row(p.job, now, p.digests, if p.cacheHit then Succeeded else Queued, None, None,
                                 0, p.maxAttempts, None, None, if p.cacheHit then Some(now) else None)]
      ensures Rolled(old(rows), old(batches), rows, batches) && Evolves(old(rows), rows)
    {
      if p.job.batch.Some? && p.job.batch.value >= |batches| {
        NoHit(rows, rows, batches);
        return None;
      }
      L.EffectShape(rows, L.Add(p, now));
      OneRowRolls(rows, batches, L.Add(p, now));
      id := Some(|rows|);
      rows := rows + [Inserted(p, now)];
      FireTrigger(|rows| - 1);
    }

    method HasResult(hash: string) returns (hit: bool)
      ensures hit <==> hash in results
    {
      hit := hash in results;
    }

    /** Expander.Expand's work on one variant. */
    method ExpandVariant(spec: ExpandSpec, v: Variant, now: Time) returns (ok: bool)
      requires Valid()
      modifies this`rows, this`batches
      ensures Valid() && (old(IsExact()) ==> IsExact()) && Evolves(old(rows), rows)
      ensures |batches| == |old(batches)|
      ensures ok <==> spec.batch < |batches|
      ensures rows == if ok then old(rows) + [Inserted(VariantSim(sha256, results, spec, v), now)] else old(rows)
      ensures ok ==>
        var r, hash := rows[|old(rows)|], sha256(v.modelSha + ":" + spec.weatherSha + ":" + spec.version);
        && r.state == (if v.modelSha != "" && spec.weatherSha != "" && hash in results then Succeeded else Queued)
        && r.job == Job(Some(spec.batch), spec.user, spec.version, spec.priority, v.modelRef, spec.weatherRef)
        && r.digests.model == (if v.modelSha == "" then None else Some(v.modelSha))
        && r.digests.weather == (if spec.weatherSha == "" then None else Some(spec.weatherSha))
        && r.digests.hash == hash && r.maxAttempts == 3 && r.createdAt == now
    {
      var hash := sha256(ContentHash.Payload(v.modelSha, spec.weatherSha, spec.version));
      var hit := false;
      if v.modelSha != "" && spec.weatherSha != "" { hit := HasResult(hash); }
      var job := Job(Some(spec.batch), spec.user, spec.version, spec.priority, v.modelRef, spec.weatherRef);
      var digests := Digests(StrPtr(v.modelSha), StrPtr(spec.weatherSha), hash);
      var id := InsertSimulation(NewSim(job, digests, hit, DEFAULT_MAX_ATTEMPTS), now);
      ok := id.Some?;
    }

    /** Expander.Expand with no failing statement: one row per variant, in order, each a
        hit or a miss by the cache, and an exact batch table stays so throughout. `clock`
        gives the time of each insert. */
    method Expand(spec: ExpandSpec, clock: nat -> Time) returns (ok: bool)
      requires Valid()
      modifies this`rows, this`batches
      ensures Valid() && (old(IsExact()) ==> IsExact()) && Evolves(old(rows), rows)
      ensures ok <==> spec.batch < |batches| || spec.variants == []
      ensures !ok ==> rows == old(rows)
      ensures ok ==> |rows| == |old(rows)| + |spec.variants| && rows[..|old(rows)|] == old(rows)
      ensures ok ==> forall k: nat :: k < |spec.variants| ==>
        rows[|old(rows)| + k] == Inserted(VariantSim(sha256, results, spec, spec.variants[k]), clock(k))
      ensures ok ==> forall k: nat :: k < |spec.variants| ==>
        Materialized(rows[|old(rows)| + k], sha256, results, spec, spec.variants[k], clock(k))
    {
      for k := 0 to |spec.variants|
        invariant Valid() && (old(IsExact()) ==> IsExact()) && Evolves(old(rows), rows) && |batches| == |old(batches)|
        invariant k > 0 ==> spec.batch < |batches|
        invariant |rows| == |old(rows)| + k && rows[..|old(rows)|] == old(rows)
        invariant forall j: nat :: j < k ==>
          rows[|old(rows)| + j] == Inserted(VariantSim(sha256, results, spec, spec.variants[j]), clock(j))
      {
        ghost var before := rows;
        ok := ExpandVariant(spec, spec.variants[k], clock(k));
        if !ok { return; }
        EvolvesTransitive(old(rows), before, rows);
      }
      forall k: nat | k < |spec.variants|
        ensures Materialized(rows[|old(rows)| + k], sha256, results, spec, spec.variants[k], clock(k))
      {
        VariantMeans(sha256, results, spec, spec.variants[k], clock(k));
      }
      return true;
    }
  }

  /** strPtr: the empty string is stored as NULL. */
  function StrPtr(s: string): Option<string> { if s == "" then None else Some(s) }

  /** The reaper's two counts are the numbers of rows it requeued and failed. */
  lemma ReapCounts(rows: seq<Row>, rows': seq<Row>, now: Time)
    requires |rows'| == |rows| && forall i :: 0 <= i < |rows| ==> rows'[i] == Reaped(rows[i], now)
    ensures Count(rows, ExpiredWhere(now, true))
         == |set i | 0 <= i < |rows| && rows[i].state.Running? && rows'[i].state.Queued?|
    ensures Count(rows, ExpiredWhere(now, false))
         == |set i | 0 <= i < |rows| && rows[i].state.Running? && rows'[i].state.Failed?|
  {
    CountIsCard(rows, ExpiredWhere(now, true),
                set i | 0 <= i < |rows| && rows[i].state.Running? && rows'[i].state.Queued?);
    CountIsCard(rows, ExpiredWhere(now, false),
                set i | 0 <= i < |rows| && rows[i].state.Running? && rows'[i].state.Failed?);
  }

  /** The reaper's two statements together, row by row and in numbers. */
  lemma TwoPasses(rows: seq<Row>, between: seq<Row>, rows': seq<Row>, now: Time)
    requires |rows| == |between| == |rows'|
    requires forall i :: 0 <= i < |rows| ==> between[i] == Pass(rows[i], now, true)
    requires forall i :: 0 <= i < |rows| ==> rows'[i] == Pass(between[i], now, false)
    ensures forall i :: 0 <= i < |rows| ==> rows'[i] == Reaped(rows[i], now) && !Expired(rows'[i], now)
    ensures Count(between, ExpiredWhere(now, false)) == Count(rows, ExpiredWhere(now, false))
    ensures Count(rows, IsExpired(now)) == Count(rows, ExpiredWhere(now, true)) + Count(rows, ExpiredWhere(now, false))
    ensures Count(rows, ExpiredWhere(now, true))
         == |set i | 0 <= i < |rows| && rows[i].state.Running? && rows'[i].state.Queued?|
    ensures Count(rows, ExpiredWhere(now, false))
         == |set i | 0 <= i < |rows| && rows[i].state.Running? && rows'[i].state.Failed?|
  {
    CountSame(between, ExpiredWhere(now, false), rows, ExpiredWhere(now, false));
    CountSplit(rows, IsExpired(now), ExpiredWhere(now, true), ExpiredWhere(now, false));
    ReapCounts(rows, rows', now);
  }

  /** A pass over all rows keeps shape; it changes the state of exactly its rows and the
      batch of none. */
  lemma PassShape(rows: seq<Row>, rows': seq<Row>, now: Time, retry: bool)
    requires Shaped(rows) && |rows'| == |rows|
    requires forall j :: 0 <= j < |rows| ==> rows'[j] == Pass(rows[j], now, retry)
    ensures Shaped(rows') && Evolves(rows, rows')
    ensures forall j :: 0 <= j < |rows| ==>
      && rows'[j].job.batch == rows[j].job.batch
      && (rows'[j].state != rows[j].state <==> ExpiredWhere(now, retry)(rows[j]))
  {
    forall j | 0 <= j < |rows|
      ensures Shape(rows'[j]) && RowEvolves(rows[j], rows'[j])
      ensures rows'[j].job.batch == rows[j].job.batch
      ensures rows'[j].state != rows[j].state <==> ExpiredWhere(now, retry)(rows[j])
    {
      assert Shape(rows[j]);
    }
  }

  /** Firing the trigger of every changed row recomputes exactly the batches hit. */
  lemma PassRolls(rows: seq<Row>, batches: seq<Batch>, rows': seq<Row>, batches': seq<Batch>, changed: seq<nat>)
    requires |rows'| == |rows| && |batches'| == |batches|
    requires forall j: nat :: j < |rows| ==> (j in changed <==> rows'[j].state != rows[j].state)
    requires forall k :: 0 <= k < |changed| ==> changed[k] < |rows|
    requires forall b :: 0 <= b < |batches| ==>
      batches'[b] == if exists k :: 0 <= k < |changed| && rows'[changed[k]].job.batch == Some(b)
                     then Synced(batches[b], rows', b) else batches[b]
    ensures Rolled(rows, batches, rows', batches')
  {
    forall b: nat | b < |batches|
      ensures Hit(rows, rows', b) <==> exists k :: 0 <= k < |changed| && rows'[changed[k]].job.batch == Some(b)
    {
      if Hit(rows, rows', b) {
        var i :| 0 <= i < |rows'| && rows'[i].job.batch == Some(b) && (i >= |rows| || rows'[i].state != rows[i].state);
        assert i in changed;
        var k :| 0 <= k < |changed| && changed[k] == i;
        assert rows'[changed[k]].job.batch == Some(b);
      }
      if k :| 0 <= k < |changed| && rows'[changed[k]].job.batch == Some(b) {
        assert changed[k] in changed;
      }
    }
  }

  lemma NoChildren(slots: seq<Slot>, total: nat)
    requires total >= 1 && forall i :: 0 <= i < |slots| ==> slots[i].None?
    ensures Recompute(slots, total) == View(0, 0, Expanding)
  {
    CountZero(slots, Present());
    CountZero(slots, Is(Succeeded));
    CountZero(slots, Is(Failed));
  }
}

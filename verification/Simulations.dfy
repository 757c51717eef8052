/** A row of app.simulations and the moves the lifecycle functions make on it. */
module Simulations {
  import opened Sums

  datatype Option<+T> = None | Some(value: T)

  type UserId = string
  type RunnerId = string
  type Time = int

  datatype State = Queued | Running | Succeeded | Failed {
    predicate Terminal() { Succeeded? || Failed? }
  }

  /** The max_attempts column: a row may be claimed at least once. */
  type MaxAttempts = n: nat | 1 <= n witness 1

  // The column default, which every insert of the repository takes.
  const DEFAULT_MAX_ATTEMPTS: MaxAttempts := 3

  /** The columns no statement rewrites after the insert (created_at apart). */
  datatype Job = Job(batch: Option<nat>, user: UserId, version: string, priority: int,
                     modelRef: string, weatherRef: string)

  /** model_sha256, weather_sha256 and content_hash. */
  datatype Digests = Digests(model: Option<string>, weather: Option<string>, hash: string)

  datatype Row = Row(
    job: Job, createdAt: Time, digests: Digests,
    state: State, runner: Option<RunnerId>, lease: Option<Time>,
    attempts: nat, maxAttempts: nat, error: Option<string>,
    startedAt: Option<Time>, finishedAt: Option<Time>)

  /** A row to insert; `cacheHit` is InsertSimulation's State argument. */
  datatype NewSim = NewSim(job: Job, digests: Digests, cacheHit: bool, maxAttempts: MaxAttempts)

  function Inserted(p: NewSim, now: Time): Row {
    Row(p.job, now, p.digests,
        if p.cacheHit then Succeeded else Queued, None, None,
        0, p.maxAttempts, None, None, if p.cacheHit then Some(now) else None)
  }

  function Claimed(r: Row, runner: RunnerId, now: Time, lease: int): Row {
    r.(state := Running, runner := Some(runner), startedAt := Some(now),
       lease := Some(now + lease), attempts := r.attempts + 1)
  }

  function Renewed(r: Row, now: Time, lease: int): Row {
    r.(lease := Some(now + lease))
  }

  function Finished(r: Row, ok: bool, error: Option<string>, now: Time): Row {
    r.(state := if ok then Succeeded else Failed, finishedAt := Some(now), error := error, lease := None)
  }

  /** Requeueing keeps started_at. */
  function Requeued(r: Row): Row {
    r.(state := Queued, runner := None, lease := None)
  }

  /** Failing an expired row clears neither runner_id nor the lease. */
  function LeaseFailed(r: Row, now: Time): Row {
    r.(state := Failed, error := Some("lease expired"), finishedAt := Some(now))
  }

  function Backfilled(r: Row, digests: Digests): Row { r.(digests := digests) }

  /** The runner_id fence together with the from-state. */
  predicate Owns(r: Row, runner: RunnerId) {
    r.state.Running? && r.runner == Some(runner)
  }

  /** A NULL lease compares as unknown, so it never qualifies. */
  predicate Expired(r: Row, now: Time) {
    r.state.Running? && r.lease.Some? && r.lease.value < now
  }

  predicate Retryable(r: Row) { r.attempts < r.maxAttempts }

  /** What one sweep of the reaper makes of a row. */
  function Reaped(r: Row, now: Time): Row {
    if !Expired(r, now) then r
    else if Retryable(r) then Requeued(r)
    else LeaseFailed(r, now)
  }

  /** The shape every stored row has. */
  predicate Shape(r: Row) {
    && 1 <= r.maxAttempts
    && (r.state.Queued? ==> r.runner.None? && r.lease.None? && r.attempts < r.maxAttempts)
    && (r.state.Running? ==> r.runner.Some? && r.lease.Some? && 1 <= r.attempts)
    && r.attempts <= r.maxAttempts
    && (r.finishedAt.Some? <==> r.state.Terminal())
    && (r.state.Succeeded? ==> r.lease.None?)
    && (r.state.Failed? ==> r.attempts >= 1 && r.runner.Some?)
    && (r.attempts == 0 ==> r.startedAt.None? && r.runner.None?)
    && (r.attempts >= 1 ==> r.startedAt.Some?)
  }

  predicate Shaped(rows: seq<Row>) {
    forall i :: 0 <= i < |rows| ==> Shape(rows[i])
  }

  predicate SameIdentity(r: Row, r': Row) {
    r'.job == r.job && r'.createdAt == r.createdAt && r'.maxAttempts == r.maxAttempts
  }

  /** Terminal rows keep their outcome: state, attempts, error and both timestamps. */
  predicate RowEvolves(r: Row, r': Row) {
    && SameIdentity(r, r')
    && r.attempts <= r'.attempts
    && (r.state.Terminal() ==>
          r'.state == r.state && r'.attempts == r.attempts && r'.error == r.error
          && r'.startedAt == r.startedAt && r'.finishedAt == r.finishedAt)
  }

  /** Rows are never deleted or reordered, and each old row evolves. */
  predicate Evolves(rows: seq<Row>, rows': seq<Row>) {
    |rows| <= |rows'| && forall i :: 0 <= i < |rows| ==> RowEvolves(rows[i], rows'[i])
  }

  lemma EvolvesTransitive(a: seq<Row>, b: seq<Row>, c: seq<Row>)
    requires Evolves(a, b) && Evolves(b, c)
    ensures Evolves(a, c)
  {
    forall i | 0 <= i < |a| ensures RowEvolves(a[i], c[i]) {
      assert RowEvolves(a[i], b[i]) && RowEvolves(b[i], c[i]);
    }
  }

  /* ---- Eligibility: app.eligible_simulations ---- */

  function RunningOf(u: UserId): Row -> bool {
    (r: Row) => r.job.user == u && r.state.Running?
  }

  function RunningCount(rows: seq<Row>, u: UserId): nat {
    Count(rows, RunningOf(u))
  }

  /** Membership in app.eligible_simulations(version, cap), for a row of the table. */
  function EligibleIn(rows: seq<Row>, version: string, cap: int): Row -> bool {
    (r: Row) => r.state.Queued? && r.job.version == version && RunningCount(rows, r.job.user) < cap
  }

  predicate Eligible(rows: seq<Row>, i: nat, version: string, cap: int) {
    i < |rows| && EligibleIn(rows, version, cap)(rows[i])
  }

  /** The number the scaler asks for: SELECT count(*) FROM app.eligible_simulations. */
  function EligibleDepth(rows: seq<Row>, version: string, cap: int): nat {
    Count(rows, EligibleIn(rows, version, cap))
  }

  /** The running count of a user, over all versions, and the eligible rows of a version,
      as sets of rows. */
  lemma RunningIsCard(rows: seq<Row>, u: UserId)
    ensures RunningCount(rows, u) == |set i | 0 <= i < |rows| && rows[i].job.user == u && rows[i].state.Running?|
  {
    CountIsCard(rows, RunningOf(u), set i | 0 <= i < |rows| && rows[i].job.user == u && rows[i].state.Running?);
  }

  lemma EligibleIsCard(rows: seq<Row>, version: string, cap: int)
    ensures EligibleDepth(rows, version, cap)
      == |set i | 0 <= i < |rows| && rows[i].state.Queued? && rows[i].job.version == version
                  && |set j | 0 <= j < |rows| && rows[j].job.user == rows[i].job.user && rows[j].state.Running?| < cap|
  {
    forall i | 0 <= i < |rows|
      ensures RunningCount(rows, rows[i].job.user)
           == |set j | 0 <= j < |rows| && rows[j].job.user == rows[i].job.user && rows[j].state.Running?|
    {
      RunningIsCard(rows, rows[i].job.user);
    }
    CountIsCard(rows, EligibleIn(rows, version, cap),
      set i | 0 <= i < |rows| && rows[i].state.Queued? && rows[i].job.version == version
              && |set j | 0 <= j < |rows| && rows[j].job.user == rows[i].job.user && rows[j].state.Running?| < cap);
  }

  /** ORDER BY priority DESC, created_at ASC: a may come before b. */
  predicate Precedes(a: Row, b: Row) {
    a.job.priority > b.job.priority || (a.job.priority == b.job.priority && a.createdAt <= b.createdAt)
  }

  /** A row that ORDER BY .. LIMIT 1 may return: eligible, and no eligible row sorts before it. */
  predicate Best(rows: seq<Row>, i: nat, version: string, cap: int) {
    && Eligible(rows, i, version, cap)
    && forall j :: 0 <= j < |rows| && Eligible(rows, j, version, cap) ==> Precedes(rows[i], rows[j])
  }

  /** Claiming a row takes one of its user's free slots and nobody else's. */
  lemma ClaimCounts(rows: seq<Row>, i: nat, runner: RunnerId, now: Time, lease: int, u: UserId)
    requires i < |rows| && rows[i].state.Queued?
    ensures RunningCount(rows[i := Claimed(rows[i], runner, now, lease)], u)
         == RunningCount(rows, u) + (if u == rows[i].job.user then 1 else 0)
  {
    CountUpdate(rows, i, Claimed(rows[i], runner, now, lease), RunningOf(u));
  }
}

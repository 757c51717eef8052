/** Claiming repeatedly for one engine version with nothing else running: how many
    claims the scaler's figure is worth, and in which order they come out. */
module Drain {
  import opened Sums
  import opened Simulations
  import D = Database

  datatype Pick = Pick(row: nat, runner: RunnerId, now: Time, lease: int)

  function After(rows: seq<Row>, p: Pick): seq<Row>
    requires p.row < |rows|
  {
    rows[p.row := Claimed(rows[p.row], p.runner, p.now, p.lease)]
  }

  /** A sequence of successful claims: each takes a row that ORDER BY .. LIMIT 1 may
      return on the table the earlier ones left. */
  predicate Claims(rows: seq<Row>, picks: seq<Pick>, version: string, cap: int)
    decreases |picks|
  {
    picks == [] ||
    (Best(rows, picks[0].row, version, cap) && Claims(After(rows, picks[0]), picks[1..], version, cap))
  }

  function Final(rows: seq<Row>, picks: seq<Pick>, version: string, cap: int): seq<Row>
    requires Claims(rows, picks, version, cap)
    decreases |picks|
  {
    if picks == [] then rows else Final(After(rows, picks[0]), picks[1..], version, cap)
  }

  predicate Drained(rows: seq<Row>, version: string, cap: int) {
    forall i :: 0 <= i < |rows| ==> !Eligible(rows, i, version, cap)
  }

  /* ---- Headroom: the sum over users of min(queued, free slots) ---- */

  function QueuedOf(u: UserId, version: string): Row -> bool {
    (r: Row) => r.job.user == u && r.state.Queued? && r.job.version == version
  }

  function Room(rows: seq<Row>, u: UserId, version: string, cap: int): nat {
    var queued, free := Count(rows, QueuedOf(u, version)), cap - RunningCount(rows, u);
    if free <= 0 then 0 else if queued <= free then queued else free
  }

  /** min(queued of the version, max(0, cap - running over all versions)). */
  lemma RoomMeans(rows: seq<Row>, u: UserId, version: string, cap: int)
    ensures var queued := |set i | 0 <= i < |rows| && rows[i].job.user == u && rows[i].state.Queued?
                                   && rows[i].job.version == version|;
      var running := |set i | 0 <= i < |rows| && rows[i].job.user == u && rows[i].state.Running?|;
      Room(rows, u, version, cap)
        == if cap <= running then 0 else if queued <= cap - running then queued else cap - running
  {
    RunningIsCard(rows, u);
    CountIsCard(rows, QueuedOf(u, version),
                set i | 0 <= i < |rows| && rows[i].job.user == u && rows[i].state.Queued?
                        && rows[i].job.version == version);
  }

  ghost function RoomOver(users: set<UserId>, rows: seq<Row>, version: string, cap: int): nat {
    if users == {} then 0
    else
      var u :| u in users;
      Room(rows, u, version, cap) + RoomOver(users - {u}, rows, version, cap)
  }

  function Users(rows: seq<Row>): set<UserId> {
    set i | 0 <= i < |rows| :: rows[i].job.user
  }

  ghost function Headroom(rows: seq<Row>, version: string, cap: int): nat {
    RoomOver(Users(rows), rows, version, cap)
  }

  /** The sum may be taken out in any order. */
  lemma {:induction false} RoomSplit(users: set<UserId>, rows: seq<Row>, version: string, cap: int, u: UserId)
    requires u in users
    ensures RoomOver(users, rows, version, cap)
         == Room(rows, u, version, cap) + RoomOver(users - {u}, rows, version, cap)
    decreases |users|
  {
    var v :| v in users && RoomOver(users, rows, version, cap)
                           == Room(rows, v, version, cap) + RoomOver(users - {v}, rows, version, cap);
    if v != u {
      RoomSplit(users - {v}, rows, version, cap, u);
      RoomSplit(users - {u}, rows, version, cap, v);
      assert users - {v} - {u} == users - {u} - {v};
    }
  }

  lemma {:induction false} RoomSame(users: set<UserId>, rows: seq<Row>, rows': seq<Row>, version: string, cap: int)
    requires forall u :: u in users ==> Room(rows, u, version, cap) == Room(rows', u, version, cap)
    ensures RoomOver(users, rows, version, cap) == RoomOver(users, rows', version, cap)
    decreases |users|
  {
    if users != {} {
      var u :| u in users;
      RoomSplit(users, rows, version, cap, u);
      RoomSplit(users, rows', version, cap, u);
      RoomSame(users - {u}, rows, rows', version, cap);
    }
  }

  lemma {:induction false} RoomZero(users: set<UserId>, rows: seq<Row>, version: string, cap: int)
    ensures RoomOver(users, rows, version, cap) == 0
       <==> forall u :: u in users ==> Room(rows, u, version, cap) == 0
    decreases |users|
  {
    if users != {} {
      var u :| u in users;
      RoomSplit(users, rows, version, cap, u);
      RoomZero(users - {u}, rows, version, cap);
    }
  }

  /** A claim uses up one unit of its user's room and nothing of anyone else's. */
  lemma ClaimTakesRoom(rows: seq<Row>, p: Pick, version: string, cap: int, u: UserId)
    requires Eligible(rows, p.row, version, cap)
    ensures Room(After(rows, p), u, version, cap)
         == Room(rows, u, version, cap) - (if u == rows[p.row].job.user then 1 else 0)
  {
    var r := Claimed(rows[p.row], p.runner, p.now, p.lease);
    ClaimCounts(rows, p.row, p.runner, p.now, p.lease, u);
    CountUpdate(rows, p.row, r, QueuedOf(u, version));
    if u == rows[p.row].job.user {
      CountZero(rows, QueuedOf(u, version));
      assert QueuedOf(u, version)(rows[p.row]);
    }
  }

  lemma ClaimTakesHeadroom(rows: seq<Row>, p: Pick, version: string, cap: int)
    requires Eligible(rows, p.row, version, cap)
    ensures Headroom(After(rows, p), version, cap) == Headroom(rows, version, cap) - 1
  {
    var rows', u := After(rows, p), rows[p.row].job.user;
    assert Users(rows') == Users(rows) by {
      forall v ensures v in Users(rows') <==> v in Users(rows) {
        if v in Users(rows) {
          var i :| 0 <= i < |rows| && rows[i].job.user == v;
          assert rows'[i].job.user == v;
        }
        if v in Users(rows') {
          var i :| 0 <= i < |rows'| && rows'[i].job.user == v;
          assert rows[i].job.user == v;
        }
      }
    }
    forall v ensures Room(rows', v, version, cap) == Room(rows, v, version, cap) - (if v == u then 1 else 0) {
      ClaimTakesRoom(rows, p, version, cap, v);
    }
    RoomSplit(Users(rows), rows, version, cap, u);
    RoomSplit(Users(rows), rows', version, cap, u);
    RoomSame(Users(rows) - {u}, rows, rows', version, cap);
  }

  /** No row is eligible exactly when no user has both a queued row and a free slot. */
  lemma DrainedIffNoHeadroom(rows: seq<Row>, version: string, cap: int)
    ensures Drained(rows, version, cap) <==> Headroom(rows, version, cap) == 0
  {
    RoomZero(Users(rows), rows, version, cap);
    forall i | 0 <= i < |rows|
      ensures Eligible(rows, i, version, cap) ==> Room(rows, rows[i].job.user, version, cap) > 0
    {
      CountZero(rows, QueuedOf(rows[i].job.user, version));
      assert Eligible(rows, i, version, cap) ==> QueuedOf(rows[i].job.user, version)(rows[i]);
    }
    forall u | u in Users(rows) && Room(rows, u, version, cap) > 0
      ensures exists i :: 0 <= i < |rows| && Eligible(rows, i, version, cap)
    {
      CountZero(rows, QueuedOf(u, version));
      var i :| 0 <= i < |rows| && QueuedOf(u, version)(rows[i]);
      assert Eligible(rows, i, version, cap);
    }
    if Drained(rows, version, cap) {
      forall u | u in Users(rows) ensures Room(rows, u, version, cap) == 0 {
      }
    } else {
      var i :| 0 <= i < |rows| && Eligible(rows, i, version, cap);
      assert rows[i].job.user in Users(rows);
    }
  }

  /** The eligible set only shrinks: a claim makes no row eligible that was not, and
      takes out at least its own. */
  lemma EligibleShrinks(rows: seq<Row>, p: Pick, version: string, cap: int, i: nat)
    requires Eligible(rows, p.row, version, cap) && Eligible(After(rows, p), i, version, cap)
    ensures Eligible(rows, i, version, cap) && i != p.row && After(rows, p)[i] == rows[i]
  {
    ClaimCounts(rows, p.row, p.runner, p.now, p.lease, rows[i].job.user);
  }

  lemma DepthFalls(rows: seq<Row>, p: Pick, version: string, cap: int)
    requires Eligible(rows, p.row, version, cap)
    ensures EligibleDepth(After(rows, p), version, cap) < EligibleDepth(rows, version, cap)
  {
    var rows' := After(rows, p);
    forall j | 0 <= j < |rows'| && EligibleIn(rows', version, cap)(rows'[j])
      ensures EligibleIn(rows, version, cap)(rows[j])
    {
      assert Eligible(rows', j, version, cap);
      EligibleShrinks(rows, p, version, cap, j);
    }
    CountStrict(rows', EligibleIn(rows', version, cap), rows, EligibleIn(rows, version, cap), p.row);
  }

  /* ---- Main results ---- */

  /** However ties are broken, n claims use up n units of headroom; so claiming stops
      (finds nothing) after exactly the initial headroom. */
  lemma {:induction false} DrainCount(rows: seq<Row>, picks: seq<Pick>, version: string, cap: int)
    requires Claims(rows, picks, version, cap)
    ensures |picks| + Headroom(Final(rows, picks, version, cap), version, cap) == Headroom(rows, version, cap)
    ensures Drained(Final(rows, picks, version, cap), version, cap) <==> |picks| == Headroom(rows, version, cap)
    decreases |picks|
  {
    if picks == [] {
      DrainedIffNoHeadroom(rows, version, cap);
    } else {
      ClaimTakesHeadroom(rows, picks[0], version, cap);
      DrainCount(After(rows, picks[0]), picks[1..], version, cap);
    }
  }

  lemma {:induction false} ClaimsWithinDepth(rows: seq<Row>, picks: seq<Pick>, version: string, cap: int)
    requires Claims(rows, picks, version, cap)
    ensures |picks| <= EligibleDepth(rows, version, cap)
    decreases |picks|
  {
    if picks != [] {
      DepthFalls(rows, picks[0], version, cap);
      ClaimsWithinDepth(After(rows, picks[0]), picks[1..], version, cap);
    }
  }

  /** The scaler and the claimer agree: a full drain makes exactly the headroom in
      claims, never more than the scaler's count, and one is zero iff the other is. */
  lemma ScalerAgreesWithClaimer(rows: seq<Row>, picks: seq<Pick>, version: string, cap: int)
    requires Claims(rows, picks, version, cap) && Drained(Final(rows, picks, version, cap), version, cap)
    ensures |picks| == Headroom(rows, version, cap) <= EligibleDepth(rows, version, cap)
    ensures |picks| == 0 <==> EligibleDepth(rows, version, cap) == 0
  {
    DrainCount(rows, picks, version, cap);
    ClaimsWithinDepth(rows, picks, version, cap);
    DrainedIffNoHeadroom(rows, version, cap);
    CountZero(rows, EligibleIn(rows, version, cap));
    assert Drained(rows, version, cap) <==> EligibleDepth(rows, version, cap) == 0 by {
      assert forall i: nat :: i < |rows| ==>
        (Eligible(rows, i, version, cap) <==> EligibleIn(rows, version, cap)(rows[i]));
    }
  }

  /** Later picks were already eligible at the start, untouched since. */
  lemma {:induction false} LaterPickEligible(rows: seq<Row>, picks: seq<Pick>, version: string, cap: int, k: nat)
    requires Claims(rows, picks, version, cap) && k < |picks|
    ensures Eligible(rows, picks[k].row, version, cap)
    decreases |picks|
  {
    if k > 0 {
      LaterPickEligible(After(rows, picks[0]), picks[1..], version, cap, k - 1);
      EligibleShrinks(rows, picks[0], version, cap, picks[k].row);
    }
  }

  /** Successive claims come out by priority descending, then age, even as users hit
      their cap on the way; and no row comes out twice. */
  lemma {:induction false} GreedyOrder(rows: seq<Row>, picks: seq<Pick>, version: string, cap: int, j: nat, k: nat)
    requires Claims(rows, picks, version, cap) && j < k < |picks|
    ensures picks[j].row < |rows| && picks[k].row < |rows| && picks[j].row != picks[k].row
    ensures Precedes(rows[picks[j].row], rows[picks[k].row])
    ensures var a, b := rows[picks[j].row], rows[picks[k].row];
      a.job.priority >= b.job.priority && (a.job.priority == b.job.priority ==> a.createdAt <= b.createdAt)
    decreases |picks|
  {
    LaterPickEligible(rows, picks, version, cap, j);
    LaterPickEligible(rows, picks, version, cap, k);
    var rest, rows' := picks[1..], After(rows, picks[0]);
    LaterPickEligible(rows', rest, version, cap, k - 1);
    EligibleShrinks(rows, picks[0], version, cap, picks[k].row);
    if j > 0 {
      GreedyOrder(rows', rest, version, cap, j - 1, k - 1);
      LaterPickEligible(rows', rest, version, cap, j - 1);
      EligibleShrinks(rows, picks[0], version, cap, picks[j].row);
    }
  }

  /* ---- The loop itself ---- */

  lemma {:induction false} ClaimsAppend(rows: seq<Row>, picks: seq<Pick>, p: Pick, version: string, cap: int)
    requires Claims(rows, picks, version, cap) && Best(Final(rows, picks, version, cap), p.row, version, cap)
    ensures Claims(rows, picks + [p], version, cap)
    ensures Final(rows, picks + [p], version, cap) == After(Final(rows, picks, version, cap), p)
    decreases |picks|
  {
    if picks == [] {
      assert [p][1..] == [];
    } else {
      ClaimsAppend(After(rows, picks[0]), picks[1..], p, version, cap);
      assert (picks + [p])[1..] == picks[1..] + [p];
    }
  }

  /** One call, as a pick. */
  method ClaimNext(db: D.Database, version: string, cap: int, lease: int, runner: RunnerId, now: Time)
    returns (pick: Option<Pick>)
    requires db.Valid()
    modifies db
    ensures db.Valid() && (old(db.IsExact()) ==> db.IsExact())
    ensures pick.None? ==> db.rows == old(db.rows) && Drained(db.rows, version, cap)
    ensures pick.Some? ==> Best(old(db.rows), pick.value.row, version, cap)
    ensures pick.Some? ==> db.rows == After(old(db.rows), pick.value)
    ensures pick.Some? ==> pick.value == Pick(pick.value.row, runner, now, lease)
    ensures pick.Some? ==> Headroom(db.rows, version, cap) < Headroom(old(db.rows), version, cap)
  {
    var row := db.ClaimSimulation(runner, version, cap, lease, now);
    if row.None? { return None; }
    var p := Pick(row.value, runner, now, lease);
    ClaimTakesHeadroom(old(db.rows), p, version, cap);
    return Some(p);
  }

  /** Claim number k was made by the k-th caller at the k-th time. */
  ghost predicate Called(picks: seq<Pick>, lease: int, runner: nat -> RunnerId, clock: nat -> Time) {
    forall k: nat :: k < |picks| ==> picks[k] == Pick(picks[k].row, runner(k), clock(k), lease)
  }

  /** The state of a drain: so far `picks`, starting from `rows`. */
  ghost predicate Drains(rows: seq<Row>, picks: seq<Pick>, now: seq<Row>, version: string, cap: int, lease: int,
                         runner: nat -> RunnerId, clock: nat -> Time)
  {
    Claims(rows, picks, version, cap) && now == Final(rows, picks, version, cap) && Called(picks, lease, runner, clock)
  }

  lemma DrainsAppend(rows: seq<Row>, picks: seq<Pick>, now: seq<Row>, p: Pick, version: string, cap: int, lease: int,
                     runner: nat -> RunnerId, clock: nat -> Time)
    requires Drains(rows, picks, now, version, cap, lease, runner, clock) && Best(now, p.row, version, cap)
    requires p == Pick(p.row, runner(|picks|), clock(|picks|), lease)
    ensures Drains(rows, picks + [p], After(now, p), version, cap, lease, runner, clock)
  {
    ClaimsAppend(rows, picks, p, version, cap);
  }

  /** Idle runners calling claim_simulation until it returns nothing, one call after
      another: they make exactly the headroom in claims and leave nothing eligible.
      `runner` and `clock` give the caller and the time of each call. */
  method ClaimAll(db: D.Database, version: string, cap: int, lease: int, runner: nat -> RunnerId, clock: nat -> Time)
    returns (picks: seq<Pick>)
    requires db.Valid()
    modifies db
    ensures db.Valid() && (old(db.IsExact()) ==> db.IsExact())
    ensures Claims(old(db.rows), picks, version, cap) && db.rows == Final(old(db.rows), picks, version, cap)
    ensures Called(picks, lease, runner, clock) && Drained(db.rows, version, cap)
    ensures |picks| == Headroom(old(db.rows), version, cap)
  {
    picks := [];
    ghost var rows, exact := db.rows, db.IsExact();
    var more := true;
    while more
      invariant db.Valid() && (exact ==> db.IsExact())
      invariant Drains(rows, picks, db.rows, version, cap, lease, runner, clock)
      invariant !more ==> Drained(db.rows, version, cap)
      decreases Headroom(db.rows, version, cap), more
    {
      ghost var before := db.rows;
      var next := ClaimNext(db, version, cap, lease, runner(|picks|), clock(|picks|));
      if next.Some? {
        DrainsAppend(rows, picks, before, next.value, version, cap, lease, runner, clock);
        picks := picks + [next.value];
      } else {
        more := false;
      }
    }
    DrainCount(rows, picks, version, cap);
  }

  /** What the scaler reads first and the runners then claim: at most as much, and
      nothing exactly when it reads nothing. */
  method ScaleThenDrain(db: D.Database, version: string, cap: int, lease: int,
                        runner: nat -> RunnerId, clock: nat -> Time)
    returns (depth: nat, picks: seq<Pick>)
    requires db.Valid()
    modifies db
    ensures depth == EligibleDepth(old(db.rows), version, cap)
    ensures Claims(old(db.rows), picks, version, cap) && Drained(db.rows, version, cap)
    ensures |picks| <= depth && (|picks| == 0 <==> depth == 0)
  {
    depth := db.CountEligible(version, cap);
    picks := ClaimAll(db, version, cap, lease, runner, clock);
    ScalerAgreesWithClaimer(old(db.rows), picks, version, cap);
  }
}

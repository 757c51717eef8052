/** Lease timing: a runner's renewal attempts against the reaper's sweeps. */
module Heartbeat {
  import opened Simulations
  import D = Database

  /** A renewal attempt, which may fail on the way, or a reaper sweep whose now() is `at`. */
  datatype Beat = Renewal(at: Time, delivered: bool) | Sweep(at: Time)

  /** Attempts are at most `gap` apart and at most `misses` in a row fail; a sweep may
      come at any time before the next attempt is due, with any earlier clock. */
  predicate Timely(beats: seq<Beat>, lastTry: Time, failed: nat, gap: nat, misses: nat)
    decreases |beats|
  {
    beats == [] ||
    match beats[0]
    case Renewal(at, true) => lastTry <= at <= lastTry + gap && Timely(beats[1..], at, 0, gap, misses)
    case Renewal(at, false) =>
      lastTry <= at <= lastTry + gap && failed < misses && Timely(beats[1..], at, failed + 1, gap, misses)
    case Sweep(at) => at <= lastTry + gap && Timely(beats[1..], lastTry, failed, gap, misses)
  }

  /** What a beat makes of the runner's row: renew_lease, or one sweep. */
  function AfterBeat(r: Row, b: Beat, runner: RunnerId, lease: int): Row {
    match b
    case Renewal(at, delivered) => if delivered && Owns(r, runner) then Renewed(r, at, lease) else r
    case Sweep(at) => Reaped(r, at)
  }

  function AfterBeats(r: Row, beats: seq<Beat>, runner: RunnerId, lease: int): Row
    decreases |beats|
  {
    if beats == [] then r else AfterBeats(AfterBeat(r, beats[0], runner, lease), beats[1..], runner, lease)
  }

  /** The lease still reaches past every attempt that may yet be missed. */
  predicate Covered(r: Row, runner: RunnerId, lastTry: Time, failed: nat, gap: nat, misses: nat) {
    Owns(r, runner) && r.lease.Some? && failed <= misses && lastTry + (misses + 1 - failed) * gap <= r.lease.value
  }

  /** One timely beat keeps the row covered, so a sweep does not touch it. */
  lemma BeatKeepsCovered(r: Row, beats: seq<Beat>, runner: RunnerId, lease: int,
                         lastTry: Time, failed: nat, gap: nat, misses: nat)
    returns (lastTry': Time, failed': nat)
    requires beats != [] && Timely(beats, lastTry, failed, gap, misses)
    requires Covered(r, runner, lastTry, failed, gap, misses) && (misses + 1) * gap <= lease
    ensures Timely(beats[1..], lastTry', failed', gap, misses)
    ensures Covered(AfterBeat(r, beats[0], runner, lease), runner, lastTry', failed', gap, misses)
    ensures AfterBeat(r, beats[0], runner, lease).attempts == r.attempts
    ensures beats[0].Sweep? ==> !Expired(r, beats[0].at)
  {
    match beats[0]
    case Renewal(at, true) => lastTry', failed' := at, 0;
    case Renewal(at, false) =>
      lastTry', failed' := at, failed + 1;
      assert (misses + 1 - failed) * gap == (misses + 1 - failed') * gap + gap;
    case Sweep(at) =>
      lastTry', failed' := lastTry, failed;
      assert (misses + 1 - failed) * gap == (misses - failed) * gap + gap;
  }

  lemma {:induction false} CoveredThroughout(r: Row, beats: seq<Beat>, runner: RunnerId, lease: int,
                                             lastTry: Time, failed: nat, gap: nat, misses: nat)
    requires Timely(beats, lastTry, failed, gap, misses)
    requires Covered(r, runner, lastTry, failed, gap, misses) && (misses + 1) * gap <= lease
    ensures var r' := AfterBeats(r, beats, runner, lease); Owns(r', runner) && r'.attempts == r.attempts
    decreases |beats|
  {
    if beats != [] {
      var t, f := BeatKeepsCovered(r, beats, runner, lease, lastTry, failed, gap, misses);
      CoveredThroughout(AfterBeat(r, beats[0], runner, lease), beats[1..], runner, lease, t, f, gap, misses);
    }
  }

  /** n failed attempts, gap apart, and then a sweep just before the next would be due. */
  function Silence(start: Time, gap: nat, n: nat): seq<Beat>
    decreases n
  {
    if n == 0 then [Sweep(start + gap)] else [Renewal(start + gap, false)] + Silence(start + gap, gap, n - 1)
  }

  lemma {:induction false} SilenceIsTimely(start: Time, failed: nat, gap: nat, misses: nat)
    requires failed <= misses
    ensures Timely(Silence(start, gap, misses - failed), start, failed, gap, misses)
    decreases misses - failed
  {
    var s := Silence(start, gap, misses - failed);
    if failed < misses {
      SilenceIsTimely(start + gap, failed + 1, gap, misses);
      assert s[1..] == Silence(start + gap, gap, misses - failed - 1);
    } else {
      assert s[1..] == [];
    }
  }

  lemma {:induction false} SilenceReaps(r: Row, start: Time, gap: nat, n: nat, runner: RunnerId, lease: int)
    requires r.state.Running? && r.lease.Some? && r.lease.value < start + (n + 1) * gap
    ensures !Owns(AfterBeats(r, Silence(start, gap, n), runner, lease), runner)
    decreases n
  {
    var s := Silence(start, gap, n);
    if n > 0 {
      assert s[1..] == Silence(start + gap, gap, n - 1);
      assert start + (n + 1) * gap == start + gap + n * gap;
      SilenceReaps(r, start + gap, gap, n - 1, runner, lease);
    } else {
      assert s[1..] == [];
    }
  }

  /** A live runner keeps its row through every timely schedule of renewals and sweeps
      exactly when the lease spans misses + 1 gaps. */
  lemma LiveRunnerKeptIff(r: Row, runner: RunnerId, now: Time, lease: int, gap: nat, misses: nat)
    requires r.state.Queued?
    ensures (forall beats :: Timely(beats, now, 0, gap, misses) ==>
               Owns(AfterBeats(Claimed(r, runner, now, lease), beats, runner, lease), runner))
       <==> (misses + 1) * gap <= lease
  {
    var c := Claimed(r, runner, now, lease);
    if (misses + 1) * gap <= lease {
      forall beats | Timely(beats, now, 0, gap, misses) ensures Owns(AfterBeats(c, beats, runner, lease), runner) {
        CoveredThroughout(c, beats, runner, lease, now, 0, gap, misses);
      }
    } else {
      SilenceIsTimely(now, 0, gap, misses);
      SilenceReaps(c, now, gap, misses, runner, lease);
      assert Timely(Silence(now, gap, misses), now, 0, gap, misses);
    }
  }

  /** The same on the table itself: with any other rows present, and with the real
      renew_lease and reap_expired_leases, a timely schedule leaves the row running
      under its runner and on its own claim. */
  method Tend(db: D.Database, id: nat, runner: RunnerId, lease: int, beats: seq<Beat>,
              ghost start: Time, ghost gap: nat, ghost misses: nat)
    requires db.Valid() && id < |db.rows| && (misses + 1) * gap <= lease
    requires Timely(beats, start, 0, gap, misses) && Covered(db.rows[id], runner, start, 0, gap, misses)
    modifies db
    ensures db.Valid() && (old(db.IsExact()) ==> db.IsExact())
    ensures |db.rows| == |old(db.rows)| && Owns(db.rows[id], runner)
    ensures db.rows[id] == AfterBeats(old(db.rows)[id], beats, runner, lease)
    ensures db.rows[id].attempts == old(db.rows)[id].attempts
  {
    ghost var lastTry, failed := start, 0;
    var n := 0;
    while n < |beats|
      invariant 0 <= n <= |beats| && db.Valid() && (old(db.IsExact()) ==> db.IsExact())
      invariant |db.rows| == |old(db.rows)|
      invariant Timely(beats[n..], lastTry, failed, gap, misses)
      invariant Covered(db.rows[id], runner, lastTry, failed, gap, misses)
      invariant db.rows[id].attempts == old(db.rows)[id].attempts
      invariant AfterBeats(db.rows[id], beats[n..], runner, lease) == AfterBeats(old(db.rows)[id], beats, runner, lease)
    {
      ghost var row := db.rows[id];
      lastTry, failed := BeatKeepsCovered(row, beats[n..], runner, lease, lastTry, failed, gap, misses);
      assert beats[n..][1..] == beats[n + 1..];
      match beats[n] {
        case Renewal(at, delivered) =>
          if delivered { var _ := db.RenewLease(id, runner, lease, at); }
        case Sweep(at) =>
          var _, _ := db.ReapExpiredLeases(at);
      }
      assert db.rows[id] == AfterBeat(row, beats[n], runner, lease);
      n := n + 1;
    }
  }
}

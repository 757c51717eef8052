/** Content-addressed results. Each claim starts an execution that fetches the inputs,
    back-fills the true hash (unfenced), runs the engine, upserts the result and
    finishes the row (fenced). Executions of one row may overlap: a zombie goes on
    after its lease was reaped and the row claimed again. An execution may fail into
    the error path or vanish at any point. */
module Provenance {
  import opened Simulations
  import opened ContentHash
  import L = Ledger

  datatype Verdict = Clean | Warnings | Severe | Fatal {
    predicate Good() { Clean? || Warnings? }

    function Name(): string {
      match this
      case Clean => "clean"
      case Warnings => "warnings"
      case Severe => "severe"
      case Fatal => "fatal"
    }
  }

  /** Verdict and deterministic metrics of a run (all of them but run_seconds). */
  datatype Output = Output(verdict: Verdict, metrics: string)

  datatype Result = Result(out: Output, artifact: Option<string>)

  /** What the system relies on: refs name immutable bytes, a digest function, and an
      engine that is a function of its inputs. */
  datatype World = World(bytes: string -> string, sha256: string -> string,
                         engine: (string, string, string) -> Output)

  /** No collisions, and digests are written as non-empty strings without colons. */
  ghost predicate Sound(w: World) {
    && (forall a, b :: w.sha256(a) == w.sha256(b) ==> a == b)
    && (forall a :: w.sha256(a) != "" && ':' !in w.sha256(a))
  }

  datatype Inputs = Inputs(model: string, weather: string, version: string)

  function HashOf(w: World, i: Inputs): string {
    w.sha256(Payload(w.sha256(i.model), w.sha256(i.weather), i.version))
  }

  function OutputOf(w: World, i: Inputs): Output { w.engine(i.model, i.weather, i.version) }

  /** The inputs a job's refs and version stand for. */
  function InputsFor(w: World, job: Job): Inputs {
    Inputs(w.bytes(job.modelRef), w.bytes(job.weatherRef), job.version)
  }

  function InputsOf(w: World, r: Row): Inputs { InputsFor(w, r.job) }

  function OrEmpty(s: Option<string>): string { if s.Some? then s.value else "" }

  /** A stored hash is the hash of the stored digests, missing ones read as empty. */
  predicate HashMatches(w: World, d: Digests, version: string) {
    d.hash == w.sha256(Payload(OrEmpty(d.model), OrEmpty(d.weather), version))
  }

  /** Neither digest is missing or empty. */
  predicate BothGiven(d: Digests) { OrEmpty(d.model) != "" && OrEmpty(d.weather) != "" }

  datatype Stage = Begun | Hashed | Ran(out: Output) | Stored(out: Output)

  datatype Exec = Exec(row: nat, runner: RunnerId, stage: Stage)

  datatype Sys = Sys(rows: seq<Row>, results: map<string, Result>, execs: map<nat, Exec>)

  datatype Step =
    | Submit(sim: NewSim, now: Time)
    | Claim(row: nat, runner: RunnerId, now: Time, lease: int, x: nat, acked: bool)
    | Renew(row: nat, now: Time, lease: int)
    | Requeue(row: nat)
    | LeaseFail(row: nat, now: Time)
    | Backfill(x: nat)
    | RunEngine(x: nat)
    | Upsert(x: nat, artifact: Option<string>)
    | Finish(x: nat, now: Time)
    | FinishError(x: nat, error: string, now: Time)
    | Vanish(x: nat)

  predicate At(s: Sys, x: nat) { x in s.execs && s.execs[x].row < |s.rows| }

  predicate Enabled(w: World, s: Sys, step: Step) {
    match step
    case Submit(p, _) =>
      // A hit was seen by HasResult at some earlier time; results never go away.
      && HashMatches(w, p.digests, p.job.version)
      && (p.cacheHit ==> BothGiven(p.digests) && p.digests.hash in s.results)
    case Claim(i, _, _, _, x, _) => i < |s.rows| && s.rows[i].state.Queued? && x !in s.execs
    case Renew(i, _, _) => i < |s.rows| && s.rows[i].state.Running?
    case Requeue(i) => i < |s.rows| && s.rows[i].state.Running? && Retryable(s.rows[i])
    case LeaseFail(i, _) => i < |s.rows| && s.rows[i].state.Running? && !Retryable(s.rows[i])
    case Backfill(x) => At(s, x) && s.execs[x].stage.Begun?
    case RunEngine(x) => At(s, x) && s.execs[x].stage.Hashed?
    case Upsert(x, _) => At(s, x) && s.execs[x].stage.Ran?
    case Finish(x, _) => At(s, x) && s.execs[x].stage.Stored?
    case FinishError(x, _, _) => At(s, x)
    case Vanish(x) => x in s.execs
  }

  function EffectOf(w: World, s: Sys, step: Step): (e: L.Effect)
    requires Enabled(w, s, step)
    ensures L.Allowed(s.rows, e)
  {
    match step
    case Submit(p, now) => L.Add(p, now)
    case Claim(i, r, now, lease, _, _) => L.Claim(i, r, now, lease)
    case Renew(i, now, lease) => L.Renew(i, now, lease)
    case Requeue(i) => L.Requeue(i)
    case LeaseFail(i, now) => L.LeaseFail(i, now)
    case Backfill(x) =>
      var i := InputsOf(w, s.rows[s.execs[x].row]);
      L.Backfill(s.execs[x].row, Digests(Some(w.sha256(i.model)), Some(w.sha256(i.weather)), HashOf(w, i)))
    case Finish(x, now) =>
      var v := s.execs[x].stage.out.verdict;
      Fenced(s, s.execs[x], v.Good(), if v.Good() then None else Some("verdict=" + v.Name()), now)
    case FinishError(x, error, now) => Fenced(s, s.execs[x], false, Some(error), now)
    case _ => L.Keep
  }

  function Fenced(s: Sys, x: Exec, ok: bool, error: Option<string>, now: Time): (e: L.Effect)
    requires x.row < |s.rows|
    ensures L.Allowed(s.rows, e)
  {
    if Owns(s.rows[x.row], x.runner) then L.Finish(x.row, ok, error, now) else L.Keep
  }

  function ResultsAfter(w: World, s: Sys, step: Step): map<string, Result>
    requires Enabled(w, s, step)
  {
    if step.Upsert? then
      var x := s.execs[step.x];
      s.results[HashOf(w, InputsOf(w, s.rows[x.row])) := Result(x.stage.out, step.artifact)]
    else s.results
  }

  function ExecsAfter(w: World, s: Sys, step: Step): map<nat, Exec>
    requires Enabled(w, s, step)
  {
    match step
    case Claim(i, r, _, _, x, acked) => if acked then s.execs[x := Exec(i, r, Begun)] else s.execs
    case Backfill(x) => s.execs[x := s.execs[x].(stage := Hashed)]
    case RunEngine(x) => s.execs[x := s.execs[x].(stage := Ran(OutputOf(w, InputsOf(w, s.rows[s.execs[x].row]))))]
    case Upsert(x, _) => s.execs[x := s.execs[x].(stage := Stored(s.execs[x].stage.out))]
    case Vanish(x) => s.execs - {x}
    case _ => s.execs
  }

  function Apply(w: World, s: Sys, step: Step): Sys
    requires Enabled(w, s, step)
  {
    Sys(L.RowsAfter(s.rows, EffectOf(w, s, step)), ResultsAfter(w, s, step), ExecsAfter(w, s, step))
  }

  function Run(w: World, s: Sys, steps: seq<Step>): Option<Sys>
    decreases |steps|
  {
    if steps == [] then Some(s)
    else if Enabled(w, s, steps[0]) then Run(w, Apply(w, s, steps[0]), steps[1..])
    else None
  }

  function Init(): Sys { Sys([], map[], map[]) }

  ghost predicate Reachable(w: World, s: Sys, steps: seq<Step>) { Run(w, Init(), steps) == Some(s) }

  /* ---- The invariant ---- */

  /** The stored result comes from an engine run on inputs with that hash. */
  ghost predicate Explained(w: World, hash: string, out: Output) {
    exists i: Inputs :: HashOf(w, i) == hash && OutputOf(w, i) == out
  }

  /** An execution past a stage has left what that stage leaves: the true hash on its
      row, the engine's output in hand, a result under that hash. */
  predicate ExecOk(w: World, r: Row, results: map<string, Result>, stage: Stage) {
    var i := InputsOf(w, r);
    && r.attempts >= 1
    && (!stage.Begun? ==> r.digests.hash == HashOf(w, i))
    && (stage.Ran? || stage.Stored? ==> stage.out == OutputOf(w, i))
    && (stage.Stored? ==> HashOf(w, i) in results)
  }

  predicate Truthful(w: World, rows: seq<Row>, results: map<string, Result>, y: Exec) {
    y.row < |rows| && ExecOk(w, rows[y.row], results, y.stage)
  }

  predicate RowOk(w: World, r: Row, results: map<string, Result>) {
    && HashMatches(w, r.digests, r.job.version)
    && (r.state.Succeeded? ==>
          && r.digests.hash in results
          && (r.attempts >= 1 ==>
                r.digests.hash == HashOf(w, InputsOf(w, r)) && OutputOf(w, InputsOf(w, r)).verdict.Good()))
  }

  ghost predicate Inv(w: World, s: Sys) {
    && Shaped(s.rows)
    && (forall h :: h in s.results ==> Explained(w, h, s.results[h].out))
    && (forall x :: x in s.execs ==> Truthful(w, s.rows, s.results, s.execs[x]))
    && (forall j :: 0 <= j < |s.rows| ==> RowOk(w, s.rows[j], s.results))
  }

  lemma StepResults(w: World, s: Sys, step: Step)
    requires Inv(w, s) && Enabled(w, s, step)
    ensures var rs := ResultsAfter(w, s, step);
      (forall h :: h in s.results ==> h in rs) && forall h :: h in rs ==> Explained(w, h, rs[h].out)
  {
    if step.Upsert? {
      var x := s.execs[step.x];
      var i := InputsOf(w, s.rows[x.row]);
      assert HashOf(w, i) == HashOf(w, i) && OutputOf(w, i) == x.stage.out;
    }
  }

  /** What one effect does to a row's truth: inputs never change, and only a back-fill
      changes the hash. */
  lemma RowTruth(w: World, rows: seq<Row>, e: L.Effect, i: nat)
    requires L.Allowed(rows, e) && i < |rows|
    ensures i < |L.RowsAfter(rows, e)|
    ensures var r, r' := rows[i], L.RowsAfter(rows, e)[i];
      && r'.job == r.job && r.attempts <= r'.attempts
      && r'.digests == (if e.Backfill? && e.row == i then e.digests else r.digests)
      && (e.Claim? && e.row == i ==> r'.attempts >= 1)
  {
  }

  /** The unfenced back-fill of any execution, zombie or not, writes the same true hash. */
  lemma HashStaysTrue(w: World, s: Sys, step: Step, i: nat)
    requires Inv(w, s) && Enabled(w, s, step) && i < |s.rows|
    ensures var r, r' := s.rows[i], L.RowsAfter(s.rows, EffectOf(w, s, step))[i];
      && r'.job == r.job && r.attempts <= r'.attempts
      && (r'.digests.hash == r.digests.hash || r'.digests.hash == HashOf(w, InputsOf(w, r)))
  {
    RowTruth(w, s.rows, EffectOf(w, s, step), i);
  }

  /** An execution that does nothing in a step stays truthful. */
  lemma IdleExec(w: World, s: Sys, step: Step, y: Exec)
    requires Inv(w, s) && Enabled(w, s, step) && Truthful(w, s.rows, s.results, y)
    ensures Truthful(w, L.RowsAfter(s.rows, EffectOf(w, s, step)), ResultsAfter(w, s, step), y)
  {
    StepResults(w, s, step);
    RowTruth(w, s.rows, EffectOf(w, s, step), y.row);
    HashStaysTrue(w, s, step, y.row);
  }

  /** A step of an execution itself leaves what its new stage promises. */
  lemma OwnStepExec(w: World, s: Sys, step: Step)
    requires Inv(w, s) && Enabled(w, s, step) && (step.Backfill? || step.RunEngine? || step.Upsert?)
    ensures Truthful(w, L.RowsAfter(s.rows, EffectOf(w, s, step)), ResultsAfter(w, s, step),
                     ExecsAfter(w, s, step)[step.x])
  {
    var y := s.execs[step.x];
    assert Truthful(w, s.rows, s.results, y);
    RowTruth(w, s.rows, EffectOf(w, s, step), y.row);
  }

  lemma NewExec(w: World, s: Sys, step: Step)
    requires Enabled(w, s, step) && step.Claim?
    ensures Truthful(w, L.RowsAfter(s.rows, EffectOf(w, s, step)), s.results, Exec(step.row, step.runner, Begun))
  {
  }

  /** So an execution's stage stays truthful under every step. */
  lemma StepExecs(w: World, s: Sys, step: Step, x: nat)
    requires Inv(w, s) && Enabled(w, s, step) && x in ExecsAfter(w, s, step)
    ensures Truthful(w, L.RowsAfter(s.rows, EffectOf(w, s, step)), ResultsAfter(w, s, step), ExecsAfter(w, s, step)[x])
  {
    if (step.Backfill? || step.RunEngine? || step.Upsert?) && step.x == x {
      OwnStepExec(w, s, step);
    } else if x in s.execs {
      IdleExec(w, s, step, s.execs[x]);
    } else {
      NewExec(w, s, step);
    }
  }

  /** An execution that finishes its row has stored a result under the row's hash. */
  lemma FinishedRowOk(w: World, s: Sys, step: Step)
    requires Inv(w, s) && Enabled(w, s, step) && EffectOf(w, s, step).Finish?
    ensures var e := EffectOf(w, s, step); RowOk(w, L.RowAfter(s.rows[e.row], e), s.results)
  {
    var e := EffectOf(w, s, step);
    assert RowOk(w, s.rows[e.row], s.results) && Shape(s.rows[e.row]);
    assert Truthful(w, s.rows, s.results, s.execs[step.x]);
  }

  /** A row's own claims about its result survive an effect on it. */
  lemma StepRows(w: World, s: Sys, step: Step, j: nat)
    requires Inv(w, s) && Enabled(w, s, step) && j < |L.RowsAfter(s.rows, EffectOf(w, s, step))|
    ensures RowOk(w, L.RowsAfter(s.rows, EffectOf(w, s, step))[j], ResultsAfter(w, s, step))
  {
    var e := EffectOf(w, s, step);
    StepResults(w, s, step);
    if j < |s.rows| {
      assert RowOk(w, s.rows[j], s.results) && Shape(s.rows[j]);
      if L.OnRow(e) && e.row == j {
        if e.Finish? {
          FinishedRowOk(w, s, step);
        } else if e.Backfill? {
          BackfilledRowOk(w, s, step);
        } else {
          MovedRowOk(w, s.rows[j], e, s.results);
        }
      }
    }
  }

  lemma BackfilledRowOk(w: World, s: Sys, step: Step)
    requires Inv(w, s) && Enabled(w, s, step) && step.Backfill?
    ensures var e := EffectOf(w, s, step); RowOk(w, L.RowAfter(s.rows[e.row], e), s.results)
  {
    var y := s.execs[step.x];
    assert RowOk(w, s.rows[y.row], s.results) && Shape(s.rows[y.row]) && Truthful(w, s.rows, s.results, y);
  }

  /** Claims, renewals and reaps leave no row succeeded. */
  lemma MovedRowOk(w: World, r: Row, e: L.Effect, results: map<string, Result>)
    requires RowOk(w, r, results) && (r.state.Queued? || r.state.Running?)
    requires e.Claim? || e.Renew? || e.Requeue? || e.LeaseFail?
    ensures RowOk(w, L.RowAfter(r, e), results)
  {
  }

  lemma StepInv(w: World, s: Sys, step: Step)
    requires Inv(w, s) && Enabled(w, s, step)
    ensures Inv(w, Apply(w, s, step))
  {
    var s' := Apply(w, s, step);
    L.EffectShape(s.rows, EffectOf(w, s, step));
    StepResults(w, s, step);
    forall x | x in s'.execs ensures Truthful(w, s'.rows, s'.results, s'.execs[x]) { StepExecs(w, s, step, x); }
    forall j | 0 <= j < |s'.rows| ensures RowOk(w, s'.rows[j], s'.results) { StepRows(w, s, step, j); }
  }

  lemma {:induction false} RunInv(w: World, s: Sys, steps: seq<Step>)
    requires Inv(w, s) && Run(w, s, steps).Some?
    ensures Inv(w, Run(w, s, steps).value)
    decreases |steps|
  {
    if steps != [] {
      StepInv(w, s, steps[0]);
      RunInv(w, Apply(w, s, steps[0]), steps[1..]);
    }
  }

  /** Without collisions a hash determines the inputs, hence the engine's output. */
  lemma HashDeterminesInputs(w: World, i: Inputs, i': Inputs)
    requires Sound(w) && HashOf(w, i) == HashOf(w, i')
    ensures i == i'
  {
    PayloadInjective(w.sha256(i.model), w.sha256(i.weather), i.version,
                     w.sha256(i'.model), w.sha256(i'.weather), i'.version);
  }

  /* ---- Main results ---- */

  /** Whatever duplicates and zombies ran, a result stored under a hash is the engine's
      output on the one input triple with that hash. */
  lemma ResultsAreProven(w: World, s: Sys, steps: seq<Step>, i: Inputs)
    requires Sound(w) && Reachable(w, s, steps) && HashOf(w, i) in s.results
    ensures s.results[HashOf(w, i)].out == OutputOf(w, i)
  {
    RunInv(w, Init(), steps);
    var h := HashOf(w, i);
    assert Explained(w, h, s.results[h].out);
    var i' :| HashOf(w, i') == h && OutputOf(w, i') == s.results[h].out;
    HashDeterminesInputs(w, i, i');
  }

  /** Every succeeded simulation has a result under its stored hash, and that hash is
      the hash of its stored digests. If the row was ever claimed, the hash is that of
      its own input bytes, the result is the engine's output on them, and the verdict
      is clean or warnings. */
  lemma SucceededHasResult(w: World, s: Sys, steps: seq<Step>, j: nat)
    requires Sound(w) && Reachable(w, s, steps) && j < |s.rows| && s.rows[j].state.Succeeded?
    ensures var r := s.rows[j];
      && r.digests.hash in s.results
      && HashMatches(w, r.digests, r.job.version)
      && (r.attempts >= 1 ==>
            && r.digests.hash == HashOf(w, InputsOf(w, r))
            && s.results[r.digests.hash].out == OutputOf(w, InputsOf(w, r))
            && s.results[r.digests.hash].out.verdict.Good())
    ensures var r := s.rows[j];
      r.attempts >= 1 ==>
        var model, weather := w.bytes(r.job.modelRef), w.bytes(r.job.weatherRef);
        && r.digests.hash == w.sha256(w.sha256(model) + ":" + w.sha256(weather) + ":" + r.job.version)
        && s.results[r.digests.hash].out == w.engine(model, weather, r.job.version)
        && s.results[r.digests.hash].out.verdict in {Clean, Warnings}
  {
    RunInv(w, Init(), steps);
    var r := s.rows[j];
    assert RowOk(w, r, s.results);
    if r.attempts >= 1 { ResultsAreProven(w, s, steps, InputsOf(w, r)); }
  }

  /** Results are never lost, and no later upsert changes a verdict or its metrics. */
  lemma {:induction false} ResultsAreForever(w: World, s: Sys, more: seq<Step>, h: string)
    requires Sound(w) && Inv(w, s) && Run(w, s, more).Some? && h in s.results
    ensures var s' := Run(w, s, more).value; h in s'.results && s'.results[h].out == s.results[h].out
    decreases |more|
  {
    if more != [] {
      var s1 := Apply(w, s, more[0]);
      StepInv(w, s, more[0]);
      if more[0].Upsert? {
        var x := s.execs[more[0].x];
        assert Truthful(w, s.rows, s.results, x) && Explained(w, h, s.results[h].out);
        var i' :| HashOf(w, i') == h && OutputOf(w, i') == s.results[h].out;
        var i := InputsOf(w, s.rows[x.row]);
        if HashOf(w, i) == h { HashDeterminesInputs(w, i, i'); }
      }
      ResultsAreForever(w, s1, more[1..], h);
    }
  }

  lemma ReachableResultsAreForever(w: World, s: Sys, steps: seq<Step>, more: seq<Step>, h: string)
    requires Sound(w) && Reachable(w, s, steps) && Run(w, s, more).Some? && h in s.results
    ensures var s' := Run(w, s, more).value; h in s'.results && s'.results[h].out == s.results[h].out
  {
    RunInv(w, Init(), steps);
    ResultsAreForever(w, s, more, h);
  }

  lemma {:induction false} RunAppend(w: World, s: Sys, a: seq<Step>, b: seq<Step>)
    requires Run(w, s, a).Some?
    ensures Run(w, s, a + b) == Run(w, Run(w, s, a).value, b)
    decreases |a|
  {
    if a == [] {
      assert a + b == b;
    } else {
      assert (a + b)[1..] == a[1..] + b;
      RunAppend(w, Apply(w, s, a[0]), a[1..], b);
    }
  }

  /* ---- What the steps of an execution write ---- */

  /** The final statement of an execution, where the fence lets it through: succeeded
      without error on a clean or warnings verdict, failed with the verdict as error on
      the others; otherwise nothing. */
  lemma FinishRecords(w: World, s: Sys, x: nat, now: Time)
    requires Enabled(w, s, Finish(x, now))
    ensures var y, s' := s.execs[x], Apply(w, s, Finish(x, now));
      var r := s.rows[y.row];
      && s'.results == s.results
      && s'.rows == if r.state != Running || r.runner != Some(y.runner) then s.rows
                    else s.rows[y.row := r.(
                      state := if y.stage.out.verdict in {Clean, Warnings} then Succeeded else Failed,
                      error := match y.stage.out.verdict
                               case Clean => None
                               case Warnings => None
                               case Severe => Some("verdict=severe")
                               case Fatal => Some("verdict=fatal"),
                      finishedAt := Some(now), lease := None)]
  {
    assert "verdict=" + "severe" == "verdict=severe" && "verdict=" + "fatal" == "verdict=fatal";
  }

  /** The error path fails the row under the same fence. */
  lemma FinishErrorRecords(w: World, s: Sys, x: nat, error: string, now: Time)
    requires Enabled(w, s, FinishError(x, error, now))
    ensures var y, s' := s.execs[x], Apply(w, s, FinishError(x, error, now));
      var r := s.rows[y.row];
      && s'.results == s.results
      && s'.rows == if r.state != Running || r.runner != Some(y.runner) then s.rows
                    else s.rows[y.row := r.(state := Failed, error := Some(error),
                                            finishedAt := Some(now), lease := None)]
  {
  }

  /** What submissions, claims, renewals and reaps write. */
  lemma TableWrites(w: World, s: Sys, step: Step)
    requires Enabled(w, s, step)
    ensures var s' := Apply(w, s, step);
      match step
      case Submit(p, now) => s'.rows == s.rows + [Inserted(p, now)] && s'.results == s.results && s'.execs == s.execs
      case Claim(i, r, now, lease, x, acked) =>
        && s'.rows == s.rows[i := s.rows[i].(state := Running, runner := Some(r), startedAt := Some(now),
                                             lease := Some(now + lease), attempts := s.rows[i].attempts + 1)]
        && s'.execs == (if acked then s.execs[x := Exec(i, r, Begun)] else s.execs) && s'.results == s.results
      case Renew(i, now, lease) => s'.rows == s.rows[i := s.rows[i].(lease := Some(now + lease))]
      case Requeue(i) => s'.rows == s.rows[i := s.rows[i].(state := Queued, runner := None, lease := None)]
      case LeaseFail(i, now) =>
        s'.rows == s.rows[i := s.rows[i].(state := Failed, error := Some("lease expired"), finishedAt := Some(now))]
      case _ => s'.rows == s.rows || step.Backfill? || step.Finish? || step.FinishError?
  {
  }

  /** The hash is computed from the fetched bytes and written unfenced, the engine runs on
      the same bytes, and its output is stored under that hash, over what was there. */
  lemma ExecutionWrites(w: World, s: Sys, x: nat, artifact: Option<string>)
    requires At(s, x)
    ensures var y := s.execs[x];
      var r := s.rows[y.row];
      var model, weather := w.bytes(r.job.modelRef), w.bytes(r.job.weatherRef);
      var hash := w.sha256(w.sha256(model) + ":" + w.sha256(weather) + ":" + r.job.version);
      && (y.stage.Begun? ==>
            var s' := Apply(w, s, Backfill(x));
            && s'.rows == s.rows[y.row := r.(digests := Digests(Some(w.sha256(model)), Some(w.sha256(weather)), hash))]
            && s'.results == s.results && s'.execs[x].stage == Hashed)
      && (y.stage.Hashed? ==>
            var s' := Apply(w, s, RunEngine(x));
            s'.rows == s.rows && s'.results == s.results
            && s'.execs[x].stage == Ran(w.engine(model, weather, r.job.version)))
      && (y.stage.Ran? ==>
            var s' := Apply(w, s, Upsert(x, artifact));
            s'.rows == s.rows && s'.results == s.results[hash := Result(y.stage.out, artifact)]
            && s'.execs[x].stage == Stored(y.stage.out))
  {
  }

  /* ---- What a cache hit is worth ---- */

  /** The stored digests are those of the inputs. */
  predicate DigestsTrue(w: World, d: Digests, i: Inputs) {
    OrEmpty(d.model) == w.sha256(i.model) && OrEmpty(d.weather) == w.sha256(i.weather)
  }

  /** A stored hash is that of the inputs exactly when the stored digests are, whatever
      strings a client sends for digests. */
  lemma HashTrueIffDigestsTrue(w: World, d: Digests, i: Inputs)
    requires Sound(w) && HashMatches(w, d, i.version)
    ensures d.hash == HashOf(w, i) <==> DigestsTrue(w, d, i)
  {
    PayloadSame(w.sha256(i.model), w.sha256(i.weather), OrEmpty(d.model), OrEmpty(d.weather), i.version);
  }

  /** Every succeeded row, claimed or not, stands for the result of exactly one input
      triple. That triple is the row's own if and only if the row's digests are true;
      then the verdict is the engine's on the row's own bytes. */
  lemma SucceededResultIsOwnIff(w: World, s: Sys, steps: seq<Step>, j: nat) returns (i: Inputs)
    requires Sound(w) && Reachable(w, s, steps) && j < |s.rows| && s.rows[j].state.Succeeded?
    ensures var r := s.rows[j];
      && r.digests.hash in s.results && s.results[r.digests.hash].out == OutputOf(w, i)
      && (forall i' :: HashOf(w, i') == r.digests.hash <==> i' == i)
      && (i == InputsOf(w, r) <==> DigestsTrue(w, r.digests, InputsOf(w, r)))
      && (r.attempts >= 1 ==> DigestsTrue(w, r.digests, InputsOf(w, r)) && OutputOf(w, i).verdict.Good())
  {
    RunInv(w, Init(), steps);
    var r := s.rows[j];
    SucceededHasResult(w, s, steps, j);
    HashTrueIffDigestsTrue(w, r.digests, InputsOf(w, r));
    assert Explained(w, r.digests.hash, s.results[r.digests.hash].out);
    i :| HashOf(w, i) == r.digests.hash && OutputOf(w, i) == s.results[r.digests.hash].out;
    forall i' | HashOf(w, i') == HashOf(w, i) ensures i' == i { HashDeterminesInputs(w, i', i); }
  }

  /** Row j is a succeeded run of the job, with digests that are true of its bytes. */
  predicate Trusted(w: World, s: Sys, j: nat, job: Job) {
    && j < |s.rows| && s.rows[j].job == job && s.rows[j].state.Succeeded?
    && DigestsTrue(w, s.rows[j].digests, InputsFor(w, job))
  }

  predicate GoodResult(s: Sys, j: nat)
    requires j < |s.rows|
  {
    s.rows[j].digests.hash in s.results && s.results[s.rows[j].digests.hash].out.verdict.Good()
  }

  /** "Succeeded means clean or warnings" holds of a job with true digests, over all
      runs, exactly when the engine says so of the job's own bytes. */
  lemma SucceededMeansGoodIff(w: World, job: Job)
    requires Sound(w)
    ensures (forall s, steps, j: nat :: Reachable(w, s, steps) && Trusted(w, s, j, job) ==>
               s.rows[j].digests.hash in s.results
               && s.results[s.rows[j].digests.hash].out.verdict in {Clean, Warnings})
       <==> w.engine(w.bytes(job.modelRef), w.bytes(job.weatherRef), job.version).verdict in {Clean, Warnings}
  {
    if OutputOf(w, InputsFor(w, job)).verdict.Good() {
      forall s, steps, j: nat | Reachable(w, s, steps) && Trusted(w, s, j, job)
        ensures s.rows[j].digests.hash in s.results
        ensures s.results[s.rows[j].digests.hash].out.verdict in {Clean, Warnings}
      {
        var i := SucceededResultIsOwnIff(w, s, steps, j);
      }
    } else {
      var p := TrueSim(w, job);
      var s, steps := CachedFailureSucceeds(w, p);
      assert Reachable(w, s, steps) && Trusted(w, s, 1, job) && !GoodResult(s, 1);
    }
  }

  ghost function TrueSim(w: World, job: Job): (p: NewSim)
    requires Sound(w)
    ensures BothGiven(p.digests)
    ensures p.job == job && !p.cacheHit && TrueDigests(w, p) && DigestsTrue(w, p.digests, InputsFor(w, job))
  {
    var i := InputsFor(w, job);
    NewSim(job, Digests(Some(w.sha256(i.model)), Some(w.sha256(i.weather)), HashOf(w, i)), false, DEFAULT_MAX_ATTEMPTS)
  }

  /** A submission whose digests are those of its inputs. */
  predicate TrueDigests(w: World, p: NewSim) {
    var i := InputsFor(w, p.job);
    p.digests == Digests(Some(w.sha256(i.model)), Some(w.sha256(i.weather)), HashOf(w, i))
  }

  function StartSteps(p: NewSim): seq<Step> { [Submit(p, 0), Claim(0, "r", 0, 90, 0, true), Backfill(0)] }
  function EndSteps(): seq<Step> { [RunEngine(0), Upsert(0, None), Finish(0, 1)] }

  lemma RunStarts(w: World, p: NewSim) returns (s: Sys)
    requires !p.cacheHit && TrueDigests(w, p)
    ensures Run(w, Init(), StartSteps(p)) == Some(s)
    ensures |s.rows| == 1 && Owns(s.rows[0], "r") && s.rows[0].job == p.job
    ensures s.execs == map[0 := Exec(0, "r", Hashed)] && s.results == map[]
  {
    var s1 := Apply(w, Init(), Submit(p, 0));
    assert s1.rows == [Inserted(p, 0)];
    var s2 := Apply(w, s1, Claim(0, "r", 0, 90, 0, true));
    s := Apply(w, s2, Backfill(0));
    var t := StartSteps(p);
    assert t[2..] == [t[2]] && t[2..][1..] == [];
    assert Run(w, s2, t[2..]) == Some(s);
    assert t[1..][1..] == t[2..];
    assert Run(w, s1, t[1..]) == Some(s);
  }

  lemma RunEnds(w: World, s: Sys) returns (f: Sys)
    requires |s.rows| == 1 && Owns(s.rows[0], "r") && s.execs == map[0 := Exec(0, "r", Hashed)] && s.results == map[]
    ensures Run(w, s, EndSteps()) == Some(f)
    ensures |f.rows| == 1 && f.rows[0].job == s.rows[0].job
    ensures var i := InputsOf(w, s.rows[0]);
      && f.rows[0].state == (if OutputOf(w, i).verdict.Good() then Succeeded else Failed)
      && f.results == map[HashOf(w, i) := Result(OutputOf(w, i), None)]
  {
    var s1 := Apply(w, s, RunEngine(0));
    var s2 := Apply(w, s1, Upsert(0, None));
    f := Apply(w, s2, Finish(0, 1));
    var t := EndSteps();
    assert t[2..] == [t[2]] && t[2..][1..] == [];
    assert Run(w, s2, t[2..]) == Some(f);
    assert t[1..][1..] == t[2..];
    assert Run(w, s1, t[1..]) == Some(f);
  }

  /** The limit of the cache: a hit asks only whether a result exists under the digests
      it is given. Any job q of the same version, submitted with p's digests once p has
      run, is recorded as succeeded and carries p's result. */
  lemma HitTakesStoredResult(w: World, p: NewSim, q: Job) returns (s: Sys, steps: seq<Step>)
    requires !p.cacheHit && TrueDigests(w, p) && BothGiven(p.digests) && q.version == p.job.version
    ensures Reachable(w, s, steps)
    ensures |s.rows| == 2 && s.rows[0].job == p.job && s.rows[1].job == q
    ensures s.rows[0].state == if OutputOf(w, InputsFor(w, p.job)).verdict.Good() then Succeeded else Failed
    ensures s.rows[1].digests == p.digests && s.rows[1].state.Succeeded?
    ensures p.digests.hash in s.results && s.results[p.digests.hash].out == OutputOf(w, InputsFor(w, p.job))
  {
    var a := RunStarts(w, p);
    var b := RunEnds(w, a);
    var again := [Submit(p.(job := q, cacheHit := true), 2)];
    s := Apply(w, b, again[0]);
    assert Run(w, b, again) == Some(s) by { assert again[1..] == []; }
    RunAppend(w, a, EndSteps(), again);
    RunAppend(w, Init(), StartSteps(p), EndSteps() + again);
    steps := StartSteps(p) + (EndSteps() + again);
  }

  /** So a failing model submitted a second time is recorded as succeeded. */
  lemma CachedFailureSucceeds(w: World, p: NewSim) returns (s: Sys, steps: seq<Step>)
    requires !p.cacheHit && TrueDigests(w, p) && BothGiven(p.digests)
    requires w.engine(w.bytes(p.job.modelRef), w.bytes(p.job.weatherRef), p.job.version).verdict in {Severe, Fatal}
    ensures Reachable(w, s, steps)
    ensures |s.rows| == 2 && s.rows[0].state.Failed? && s.rows[1].state.Succeeded?
    ensures s.rows[0].job == s.rows[1].job == p.job && s.rows[1].digests == p.digests
    ensures !GoodResult(s, 1) && p.digests.hash in s.results
    ensures s.results[p.digests.hash].out.verdict in {Severe, Fatal}
  {
    s, steps := HitTakesStoredResult(w, p, p.job);
  }

  /** And a model submitted with another's digests is recorded with the other's result. */
  lemma FalseDigestsBorrow(w: World, p: NewSim, q: Job) returns (s: Sys, steps: seq<Step>)
    requires Sound(w) && !p.cacheHit && TrueDigests(w, p)
    requires q.version == p.job.version && InputsFor(w, q) != InputsFor(w, p.job)
    ensures Reachable(w, s, steps)
    ensures |s.rows| == 2 && s.rows[1].job == q && s.rows[1].state.Succeeded? && s.rows[1].digests == p.digests
    ensures !DigestsTrue(w, s.rows[1].digests, InputsFor(w, q))
    ensures p.digests.hash in s.results && s.results[p.digests.hash].out == OutputOf(w, InputsFor(w, p.job))
  {
    s, steps := HitTakesStoredResult(w, p, q);
  }
}

/** The step loop of a job: conditions, outcomes, and what each step hands on to the next. */
module Steps {
  import opened Text
  import opened Values
  import opened Context
  import opened Builtins
  import EnvText
  import opened EnvFiles
  import opened Evaluator

  datatype Step = Step(id: string, cond: string, continueOnError: bool, env: map<string, string>)

  /** What running a step comes to: its result, whether it returned an error, and the magic files afterwards. */
  datatype StepRun = StepRun(result: StepResult, err: bool, disk: Disk)

  /** What stays fixed during a job. */
  datatype JobSetup = JobSetup(pr: Prims, wfEnv: map<string, string>, jobID: string, jobEnv: map<string, string>,
                               info: JobInfo, secrets: map<string, string>)

  datatype ExecState = ExecState(results: map<string, StepResult>, liveEnv: map<string, string>,
                                 livePath: seq<string>, status: JobStatus, cancelled: bool, off: Offsets)

  /** The outside world: what running the i-th step does, given everything the job knows by then. */
  type World = (nat, ExecState) -> StepRun

  const SKIPPED := StepResult("skipped", "skipped", map[])
  const FAILED := StepResult("failure", "failure", map[])

  function EffectiveId(s: Step, i: nat): string {
    if s.id == "" then "__step_" + Itoa(i) else s.id
  }

  function StepContext(job: JobSetup, st: ExecState, s: Step): EvalContext {
    ContextFor(job.pr, job.wfEnv, job.jobID, job.jobEnv, s.env, st.results, st.liveEnv, job.info, job.secrets,
               st.status, st.cancelled)
  }

  /** A condition that does not evaluate counts as false; no condition means the job has not failed. */
  predicate ShouldRun(job: JobSetup, st: ExecState, s: Step) {
    if s.cond != "" then EvalBoolText(job.pr, StepContext(job, st, s), s.cond) == Some(true)
    else StatusOk(st.status)
  }

  function RawResult(r: StepRun): StepResult {
    if r.err then FAILED else r.result
  }

  /** The state behind one step. */
  function Advanced(job: JobSetup, world: World, st: ExecState, s: Step, i: nat): ExecState {
    var id := EffectiveId(s, i);
    if !ShouldRun(job, st, s) then st.(results := st.results[id := SKIPPED])
    else
      var run := world(i, st);
      var (delta, off) := ReadAll(st.off, run.disk);
      var result := RawResult(run);
      ExecState(
        st.results[id := result.(outputs := result.outputs + delta.outputs)],
        st.liveEnv + delta.env,
        st.livePath + delta.paths,
        if result.outcome == "failure" && !s.continueOnError then Failure else st.status,
        st.cancelled,
        off)
  }

  /** The state in front of step `n`. */
  function Before(job: JobSetup, world: World, init: ExecState, steps: seq<Step>, n: nat): ExecState
    requires n <= |steps|
  {
    if n == 0 then init
    else Advanced(job, world, Before(job, world, init, steps, n - 1), steps[n - 1], n - 1)
  }

  function Start(initialEnv: map<string, string>): ExecState {
    ExecState(map[], initialEnv, [], Pending, false, Offsets(0, 0, 0))
  }

  function Named(steps: seq<Step>): (r: seq<Step>)
    ensures |r| == |steps|
  {
    seq(|steps|, i requires 0 <= i < |steps| => steps[i].(id := EffectiveId(steps[i], i)))
  }

  class ExecutionContext {
    var stepResults: map<string, StepResult>
    var liveEnv: map<string, string>
    var livePath: seq<string>
    var jobStatus: JobStatus
    var cancelled: bool
    const files: EnvFiles

    constructor (initialEnv: map<string, string>, files: EnvFiles)
      requires files.Position() == Offsets(0, 0, 0)
      ensures this.files == files && State() == Start(initialEnv)
    {
      stepResults, liveEnv, livePath := map[], initialEnv, [];
      jobStatus, cancelled := Pending, false;
      this.files := files;
    }

    function State(): ExecState
      reads this, files
    {
      ExecState(stepResults, liveEnv, livePath, jobStatus, cancelled, files.Position())
    }

    method DecideRun(job: JobSetup, s: Step) returns (b: bool)
      ensures b == ShouldRun(job, State(), s)
    {
      var c := BuildEvalContext(job.pr, job.wfEnv, job.jobID, job.jobEnv, s.env, stepResults, liveEnv, job.info,
                                job.secrets, jobStatus, cancelled);
      if s.cond != "" {
        var ok := EvalBool(job.pr, c, s.cond);
        b := ok == Some(true);
      } else {
        b := jobStatus == Success || jobStatus == Pending;
      }
    }

    /** One turn of the loop. */
    method RunOne(job: JobSetup, world: World, s: Step, i: nat)
      modifies this, files
      ensures State() == Advanced(job, world, old(State()), s, i)
    {
      hide ShouldRun, EffectiveId;
      var id := EffectiveId(s, i);
      var run? := DecideRun(job, s);
      if !run? {
        stepResults := stepResults[id := SKIPPED];
        return;
      }
      var run := world(i, State());
      var result := RawResult(run);
      var delta := files.ReadDelta(run.disk);
      if delta.Some? {
        liveEnv := CopyInto(liveEnv, delta.value.env);
        livePath := livePath + delta.value.paths;
        var outputs := CopyInto(result.outputs, delta.value.outputs);
        result := result.(outputs := outputs);
      } else {
        assert liveEnv + map[] == liveEnv && livePath + [] == livePath && result.outputs + map[] == result.outputs;
      }
      stepResults := stepResults[id := result];
      if result.outcome == "failure" && !s.continueOnError {
        jobStatus := Failure;
      }
    }

    /** The loop over all steps, which also gives unnamed steps their ids, and the final status. */
    method RunSteps(job: JobSetup, world: World, steps: array<Step>) returns (final: JobStatus)
      modifies this, files, steps
      ensures steps[..] == Named(old(steps[..]))
      ensures State() == Before(job, world, old(State()), old(steps[..]), steps.Length)
      ensures final == if jobStatus == Pending then Success else jobStatus
      ensures var init, all := old(State()), old(steps[..]);
              init == Start(init.liveEnv) ==>
                final == if exists i: nat | i < |all| :: Broke(job, world, init, all, i) then Failure else Success
    {
      hide Advanced, Itoa, Broke;
      ghost var all := steps[..];
      for i := 0 to steps.Length
        invariant forall k | 0 <= k < i :: steps[k] == all[k].(id := EffectiveId(all[k], k))
        invariant forall k | i <= k < steps.Length :: steps[k] == all[k]
        invariant State() == Before(job, world, old(State()), all, i)
      {
        var s := steps[i];
        if s.id == "" {
          steps[i] := s.(id := EffectiveId(s, i));
        }
        RunOne(job, world, s, i);
      }
      final := if jobStatus == Pending then Success else jobStatus;
      if old(State()) == Start(old(State()).liveEnv) {
        FailedIffBroke(job, world, old(State()).liveEnv, all, |all|);
      }
    }
  }

  // ---- what holds of every run ----

  /** Step `n` was run. */
  predicate Ran(job: JobSetup, world: World, init: ExecState, steps: seq<Step>, n: nat)
    requires n < |steps|
  {
    ShouldRun(job, Before(job, world, init, steps, n), steps[n])
  }

  /** The step ran, came to an error or to a failure, and was not allowed to. */
  predicate Broke(job: JobSetup, world: World, init: ExecState, steps: seq<Step>, n: nat)
    requires n < |steps|
  {
    var run := world(n, Before(job, world, init, steps, n));
    Ran(job, world, init, steps, n) && (run.err || run.result.outcome == "failure") && !steps[n].continueOnError
  }

  lemma StatusStep(job: JobSetup, world: World, st: ExecState, s: Step, i: nat)
    ensures var st' := Advanced(job, world, st, s, i);
            && st'.cancelled == st.cancelled
            && st'.status == if ShouldRun(job, st, s) && (world(i, st).err || world(i, st).result.outcome == "failure")
                                && !s.continueOnError then Failure else st.status
  {
    hide ShouldRun, EffectiveId, ReadAll;
  }

  /** At every point of the loop the job is pending or failed; it is failed exactly when a step that was not allowed to
      fail has run and failed. So a failure is never undone. */
  lemma {:induction false} FailedIffBroke(job: JobSetup, world: World, env: map<string, string>, steps: seq<Step>, n: nat)
    requires n <= |steps|
    ensures var init := Start(env); var st := Before(job, world, init, steps, n);
            && !st.cancelled
            && st.status in {Pending, Failure}
            && (st.status == Failure <==> exists i: nat | i < n :: Broke(job, world, init, steps, i))
  {
    hide ShouldRun, Advanced;
    if n > 0 {
      FailedIffBroke(job, world, env, steps, n - 1);
      var init := Start(env);
      StatusStep(job, world, Before(job, world, init, steps, n - 1), steps[n - 1], n - 1);
      if Broke(job, world, init, steps, n - 1) { assert n - 1 < n; }
    }
  }

  /** The status checks as conditions, bare or wrapped and with any padding: `success()` decides as no condition does,
      `failure()` the opposite, `cancelled()` never holds, `always()` always does. */
  lemma StatusConditions(job: JobSetup, world: World, env: map<string, string>, steps: seq<Step>, n: nat,
                         check: string, a: string, b: string, b': string, a': string)
    requires n < |steps| && Blank(a) && Blank(b) && Blank(b') && Blank(a')
    requires check in {"success()", "failure()", "cancelled()", "always()"}
    requires steps[n].cond == a + check + a' || steps[n].cond == a + ("${{" + b + check + b' + "}}") + a'
    ensures var init := Start(env);
            var failed := exists i: nat | i < n :: Broke(job, world, init, steps, i);
            Ran(job, world, init, steps, n) <==>
            match check
            case "success()" => !failed
            case "failure()" => failed
            case "cancelled()" => false
            case _ => true
  {
    hide EvalBoolText, Before, Broke, Blank, ContextFor;
    var init := Start(env);
    var st := Before(job, world, init, steps, n);
    FailedIffBroke(job, world, env, steps, n);
    var c := StepContext(job, st, steps[n]);
    assert c.jobStatus == st.status && c.cancelled == st.cancelled by { ContextStatus(job, st, steps[n]); }
    StatusChecks(job.pr, c, check, a, b, b', a');
    assert steps[n].cond != "";
  }

  lemma ContextStatus(job: JobSetup, st: ExecState, s: Step)
    ensures StepContext(job, st, s).jobStatus == st.status && StepContext(job, st, s).cancelled == st.cancelled
  {
  }

  /** Without a condition a step runs exactly as long as no step has broken the job. */
  lemma NoCondition(job: JobSetup, world: World, env: map<string, string>, steps: seq<Step>, n: nat)
    requires n < |steps| && steps[n].cond == ""
    ensures var init := Start(env);
            Ran(job, world, init, steps, n) <==> !exists i: nat | i < n :: Broke(job, world, init, steps, i)
  {
    hide Before, Broke;
    FailedIffBroke(job, world, env, steps, n);
  }

  /** A condition, bare or wrapped and with any padding, lets the step run exactly if it evaluates, and to a value other
      than null, false, zero and the empty text. */
  lemma ConditionDecides(job: JobSetup, world: World, init: ExecState, steps: seq<Step>, n: nat,
                         t: string, a: string, b: string, b': string, a': string)
    requires n < |steps| && Blank(a) && Blank(b) && Blank(b') && Blank(a') && Bare(t)
    requires steps[n].cond == a + t + a' || steps[n].cond == a + ("${{" + b + t + b' + "}}") + a'
    ensures Ran(job, world, init, steps, n) <==>
            match EvalText(job.pr, StepContext(job, Before(job, world, init, steps, n), steps[n]), t)
            case None => false
            case Some(v) => v != Null && v != Bool(false) && v != Num(Fin(0.0)) && v != Int(0) && v != Str("")
  {
    hide EvalText, Before, Blank, ContextFor, Unwrap, IsTruthy;
    UnwrapPadded(a, b, t, b', a');
    var v := EvalText(job.pr, StepContext(job, Before(job, world, init, steps, n), steps[n]), t);
    if v.Some? { TruthOf(v.value); }
    assert steps[n].cond != "";
  }

  /** Ids are distinct if the given ones are, and none of them looks like a generated one. */
  lemma IdsDistinct(steps: seq<Step>, i: nat, j: nat)
    requires i < j < |steps|
    requires steps[i].id != "" && steps[j].id != "" ==> steps[i].id != steps[j].id
    requires !HasPrefix(steps[i].id, "__step_") && !HasPrefix(steps[j].id, "__step_")
    ensures EffectiveId(steps[i], i) != EffectiveId(steps[j], j)
  {
    hide Itoa, Atoi;
    var p := "__step_";
    assert |p| == 7;
    GeneratedId(i);
    GeneratedId(j);
    AtoiOfItoa(i);
    AtoiOfItoa(j);
  }

  lemma GeneratedId(i: nat)
    ensures var id := "__step_" + Itoa(i); HasPrefix(id, "__step_") && id[7..] == Itoa(i)
  {
    hide Itoa;
    var p := "__step_";
    assert |p| == 7 && (p + Itoa(i))[..7] == p;
  }

  /** Over any stretch of skipped steps the job stands still: environment, path, status and file offsets are the same at
      both ends, results recorded before it under other ids are kept, and every id of the stretch is marked skipped. */
  lemma {:induction false} SkippedStretch(job: JobSetup, world: World, init: ExecState, steps: seq<Step>, m: nat, n: nat)
    requires m <= n <= |steps| && forall i: nat | m <= i < n :: !Ran(job, world, init, steps, i)
    ensures var a, b := Before(job, world, init, steps, m), Before(job, world, init, steps, n);
            && b == a.(results := b.results)
            && (forall i: nat | m <= i < n :: EffectiveId(steps[i], i) in b.results
                  && b.results[EffectiveId(steps[i], i)] == StepResult("skipped", "skipped", map[]))
            && (forall k | k in b.results ::
                  (k in a.results && b.results[k] == a.results[k])
                  || exists i: nat | m <= i < n :: k == EffectiveId(steps[i], i))
            && a.results.Keys <= b.results.Keys
    decreases n
  {
    hide EffectiveId, Before, Ran;
    if m < n {
      SkippedStretch(job, world, init, steps, m, n - 1);
      var st := Before(job, world, init, steps, n - 1);
      assert !Ran(job, world, init, steps, n - 1);
      SkipOne(job, world, init, steps, n - 1);
      assert m <= n - 1 < n;
    }
  }

  lemma SkipOne(job: JobSetup, world: World, init: ExecState, steps: seq<Step>, n: nat)
    requires n < |steps| && !Ran(job, world, init, steps, n)
    ensures var st := Before(job, world, init, steps, n);
            Before(job, world, init, steps, n + 1) ==
            st.(results := st.results[EffectiveId(steps[n], n) := SKIPPED])
  {
    hide EffectiveId, ReadAll, ShouldRun;
  }

  /** What is recorded for step `n`. */
  function Recorded(job: JobSetup, world: World, init: ExecState, steps: seq<Step>, n: nat): StepResult
    requires n < |steps|
  {
    if !Ran(job, world, init, steps, n) then SKIPPED
    else
      var st := Before(job, world, init, steps, n);
      var r := RawResult(world(n, st));
      r.(outputs := r.outputs + ReadAll(st.off, world(n, st).disk).0.outputs)
  }

  /** What the record says of step `i`: skipped, a failure if the step came to an error, or else the step's own result. */
  ghost predicate Tells(job: JobSetup, world: World, init: ExecState, steps: seq<Step>, i: nat, res: StepResult)
    requires i < |steps|
  {
    var run := world(i, Before(job, world, init, steps, i));
    if !Ran(job, world, init, steps, i) then res == StepResult("skipped", "skipped", map[])
    else if run.err then res.outcome == "failure" && res.conclusion == "failure"
    else res.outcome == run.result.outcome && res.conclusion == run.result.conclusion
  }

  lemma RecordedTells(job: JobSetup, world: World, init: ExecState, steps: seq<Step>, i: nat)
    requires i < |steps|
    ensures Tells(job, world, init, steps, i, Recorded(job, world, init, steps, i))
  {
    hide Ran, Before, ReadAll;
  }

  /** With distinct ids every step so far has exactly its own result, and there are no others. */
  lemma {:induction false} OneResultEach(job: JobSetup, world: World, env: map<string, string>, steps: seq<Step>, n: nat)
    requires n <= |steps|
    requires forall i, j | 0 <= i < j < |steps| :: EffectiveId(steps[i], i) != EffectiveId(steps[j], j)
    ensures var init := Start(env); var st := Before(job, world, init, steps, n);
            && (forall i: nat | i < n :: EffectiveId(steps[i], i) in st.results
                  && st.results[EffectiveId(steps[i], i)] == Recorded(job, world, init, steps, i)
                  && Tells(job, world, init, steps, i, st.results[EffectiveId(steps[i], i)]))
            && (forall k | k in st.results :: exists i: nat | i < n :: k == EffectiveId(steps[i], i))
  {
    hide EffectiveId, Recorded, Ran, Before, Tells;
    var init := Start(env);
    if n == 0 {
      assert Before(job, world, init, steps, 0) == init by { BeforeFirst(job, world, init, steps); }
    } else {
      OneResultEach(job, world, env, steps, n - 1);
      ResultStep(job, world, init, steps, n - 1);
      RecordedTells(job, world, init, steps, n - 1);
      var st, st' := Before(job, world, init, steps, n - 1), Before(job, world, init, steps, n);
      forall k | k in st'.results ensures exists i: nat | i < n :: k == EffectiveId(steps[i], i) {
        if k == EffectiveId(steps[n - 1], n - 1) { assert n - 1 < n; }
      }
    }
  }

  lemma BeforeFirst(job: JobSetup, world: World, init: ExecState, steps: seq<Step>)
    ensures Before(job, world, init, steps, 0) == init
  {
  }

  lemma ResultStep(job: JobSetup, world: World, init: ExecState, steps: seq<Step>, n: nat)
    requires n < |steps|
    ensures Before(job, world, init, steps, n + 1).results ==
            Before(job, world, init, steps, n).results
              [EffectiveId(steps[n], n) := Recorded(job, world, init, steps, n)]
  {
    hide EffectiveId, ReadAll, ShouldRun;
  }
}

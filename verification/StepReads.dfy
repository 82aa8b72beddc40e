/** What the expressions of a step see: its environment, the workflow's data, and the steps before it. */
module StepReads {
  import opened Text
  import opened Values
  import opened Context
  import opened Lexer
  import opened Evaluator
  import EnvText
  import opened EnvFiles
  import opened Steps
  import opened StepFiles
  import opened ContextReads

  /** `env.k` is the variable of the step, else of the live environment, else of the job, else of the workflow. */
  lemma EnvReads(job: JobSetup, st: ExecState, s: Step, k: string)
    requires Writable(Ident(k)) && (k in s.env || k in st.liveEnv || k in job.jobEnv || k in job.wfEnv)
    ensures EvalText(job.pr, StepContext(job, st, s), "env." + k) ==
            Some(Str(if k in s.env then s.env[k]
                     else if k in st.liveEnv then st.liveEnv[k]
                     else if k in job.jobEnv then job.jobEnv[k]
                     else job.wfEnv[k]))
  {
    hide EvalText, Writable, GithubContext;
    EntryTexts(job.pr, StepContext(job, st, s), k);
  }

  /** Secrets and inputs come from where they should. */
  lemma SecretReads(job: JobSetup, st: ExecState, s: Step, k: string)
    requires Writable(Ident(k))
    ensures k in job.secrets ==> EvalText(job.pr, StepContext(job, st, s), "secrets." + k) == Some(Str(job.secrets[k]))
    ensures k in job.info.inputs ==> EvalText(job.pr, StepContext(job, st, s), "inputs." + k) == Some(Str(job.info.inputs[k]))
  {
    hide EvalText, Writable, GithubContext;
    EntryTexts(job.pr, StepContext(job, st, s), k);
  }

  lemma WordWritable(f: string)
    requires f != "" && (forall c | c in f :: 'a' <= c <= 'z' || c == '_') && f !in {"true", "false", "null"}
    ensures Writable(Ident(f))
  {
    assert f[0] in f;
  }

  lemma FieldsWritable(f: string)
    requires f in {"sha", "ref", "ref_name", "event_name", "repository", "repository_owner", "actor", "run_id", "run_number",
                   "workspace", "job", "event", "status"}
    ensures Writable(Ident(f))
  {
    hide Writable;
    WordWritable(f);
  }

  function GithubField(job: JobSetup, f: string): Value {
    match f
    case "sha" => Str(job.info.sha)
    case "ref" => Str(job.info.ref)
    case "ref_name" => Str(job.info.refName)
    case "event_name" => Str(job.info.eventName)
    case "repository" => Str(job.info.repo)
    case "repository_owner" => Str(job.info.owner)
    case "actor" => Str(job.info.actor)
    case "run_id" => Str(job.info.runID)
    case "run_number" => Int(job.info.runNumber)
    case "workspace" => Str("/workspace")
    case _ => Str(job.jobID)
  }

  lemma GithubHas(job: JobSetup, f: string)
    requires f in {"sha", "ref", "ref_name", "event_name", "repository", "repository_owner", "actor", "run_id", "run_number",
                   "workspace", "job"}
    ensures var m := GithubContext(job.pr, job.info, job.jobID); f in m && m[f] == GithubField(job, f)
  {
    hide GithubField, GithubContext;
    if f in {"sha", "ref", "ref_name", "event_name", "repository"} { GithubHasRef(job, f); } else { GithubHasRun(job, f); }
  }

  lemma GithubHasRef(job: JobSetup, f: string)
    requires f in {"sha", "ref", "ref_name", "event_name", "repository"}
    ensures var m := GithubContext(job.pr, job.info, job.jobID); f in m && m[f] == GithubField(job, f)
  {
  }

  lemma GithubHasRun(job: JobSetup, f: string)
    requires f in {"repository_owner", "actor", "run_id", "run_number", "workspace", "job"}
    ensures var m := GithubContext(job.pr, job.info, job.jobID); f in m && m[f] == GithubField(job, f)
  {
  }

  /** The fields of `github` as text; the event is there if its payload is JSON. */
  lemma GithubReads(job: JobSetup, st: ExecState, s: Step, f: string)
    requires f in {"sha", "ref", "ref_name", "event_name", "repository", "repository_owner", "actor", "run_id", "run_number",
                   "workspace", "job"}
    ensures EvalText(job.pr, StepContext(job, st, s), "github." + f) == Some(GithubField(job, f))
    ensures job.info.eventPayload != "" && job.pr.fromJson(job.info.eventPayload).Some? ==>
              EvalText(job.pr, StepContext(job, st, s), "github." + "event") == job.pr.fromJson(job.info.eventPayload)
  {
    hide EvalText, Writable, GithubField;
    FieldsWritable(f);
    FieldsWritable("event");
    GithubHas(job, f);
    EntryTexts(job.pr, StepContext(job, st, s), f);
    EntryTexts(job.pr, StepContext(job, st, s), "event");
  }

  /** `job.status` for every status a job can have. */
  lemma StatusReads(job: JobSetup, st: ExecState, s: Step)
    ensures EvalText(job.pr, StepContext(job, st, s), "job." + "status") ==
            Some(Str(if st.status == Failure then "failure" else if st.status == Cancelled then "cancelled" else "success"))
  {
    hide EvalText, Writable, GithubContext;
    FieldsWritable("status");
    EntryTexts(job.pr, StepContext(job, st, s), "status");
  }

  lemma RunnerReads(job: JobSetup, st: ExecState, s: Step, f: string)
    requires f in {"os", "arch", "temp", "tool_cache", "name"}
    ensures EvalText(job.pr, StepContext(job, st, s), "runner." + f) ==
            Some(Str(match f
                     case "os" => "Linux"
                     case "arch" => "X64"
                     case "temp" => "/runner/_temp"
                     case "tool_cache" => "/runner/_tools"
                     case _ => "ghenkins"))
  {
    hide EvalText, Writable, GithubContext;
    WordWritable(f);
    EntryTexts(job.pr, StepContext(job, st, s), f);
  }

  /** `job.status` is failure exactly when the job has failed; the loop never sees a cancelled job. */
  lemma JobStatusReads(job: JobSetup, world: World, env: map<string, string>, steps: seq<Step>, n: nat)
    requires n < |steps|
    ensures var init := Start(env);
            EvalText(job.pr, StepContext(job, Before(job, world, init, steps, n), steps[n]), "job." + "status") ==
            Some(Str(if exists i: nat | i < n :: Broke(job, world, init, steps, i) then "failure" else "success"))
  {
    hide EvalText, Before, Broke, StepContext;
    FailedIffBroke(job, world, env, steps, n);
    StatusReads(job, Before(job, world, Start(env), steps, n), steps[n]);
  }

  // ---- earlier steps ----

  lemma SeesResults(job: JobSetup, st: ExecState, s: Step)
    ensures StepContext(job, st, s).steps == st.results
  {
  }

  /** A later condition that asks for a step's outcome gets "skipped" if it did not run, "failure" if it came to an error,
      and else what the step itself came to. */
  lemma EarlierOutcome(job: JobSetup, world: World, env: map<string, string>, steps: seq<Step>, i: nat, n: nat)
    requires i < n < |steps| && Writable(Ident(EffectiveId(steps[i], i)))
    requires forall j, k | 0 <= j < k < |steps| :: EffectiveId(steps[j], j) != EffectiveId(steps[k], k)
    ensures var init := Start(env);
            EvalText(job.pr, StepContext(job, Before(job, world, init, steps, n), steps[n]),
                     "steps." + EffectiveId(steps[i], i) + ".outcome") ==
            Some(Str(if !Ran(job, world, init, steps, i) then "skipped"
                     else if world(i, Before(job, world, init, steps, i)).err then "failure"
                     else world(i, Before(job, world, init, steps, i)).result.outcome))
  {
    hide EvalText, Before, Recorded, EffectiveId, Writable, Ran, StepContext;
    OneResultEach(job, world, env, steps, n);
    SeesResults(job, Before(job, world, Start(env), steps, n), steps[n]);
    StepText(job.pr, StepContext(job, Before(job, world, Start(env), steps, n), steps[n]), EffectiveId(steps[i], i),
             EffectiveId(steps[i], i));
  }

  /** From file to expression: a later step that asks for an output of an earlier one, which ran, gets what that step
      appended to the output file last under that name, or else what the step itself gave, provided the files could be
      read behind every step up to that one. */
  lemma EarlierOutput(job: JobSetup, world: World, env: map<string, string>, steps: seq<Step>, chunk: nat -> Files,
                      i: nat, n: nat, k: string)
    requires i < n < |steps| && Writable(Ident(EffectiveId(steps[i], i))) && Writable(Ident(k))
    requires AppendsOnly(job, world, Start(env), steps, chunk) && Ran(job, world, Start(env), steps, i)
    requires forall j, k | 0 <= j < k < |steps| :: EffectiveId(steps[j], j) != EffectiveId(steps[k], k)
    requires AllReadable(job, world, Start(env), steps, i + 1)
    ensures var init := Start(env);
            var run := world(i, Before(job, world, init, steps, i));
            var outputs := (if run.err then map[] else run.result.outputs) + EnvText.ParseEnv(chunk(i).output);
            k in outputs ==>
              EvalText(job.pr, StepContext(job, Before(job, world, init, steps, n), steps[n]),
                       "steps." + EffectiveId(steps[i], i) + ".outputs." + k) == Some(Str(outputs[k]))
  {
    hide EvalText, Before, EffectiveId, Writable, Ran, StepContext, AppendsOnly, FileActions, Unread, EnvText.ParseEnv,
         Start, Readable;
    OutputsAreOwn(job, world, env, steps, chunk, i, n);
    SeesResults(job, Before(job, world, Start(env), steps, n), steps[n]);
    StepText(job.pr, StepContext(job, Before(job, world, Start(env), steps, n), steps[n]), EffectiveId(steps[i], i), k);
  }
}

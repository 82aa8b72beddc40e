/** The context objects an expression can mention, path lookup in them, and how a step's context is put together. */
module Context {
  import opened Text
  import opened Values

  datatype JobStatus = Pending | Success | Failure | Cancelled | Skipped | Running

  datatype StepResult = StepResult(outcome: string, conclusion: string, outputs: map<string, string>)

  datatype EvalContext = EvalContext(
    github: map<string, Value>,
    env: map<string, string>,
    job: map<string, Value>,
    steps: map<string, StepResult>,
    runner: map<string, Value>,
    secrets: map<string, string>,
    inputs: map<string, string>,
    jobStatus: JobStatus,
    cancelled: bool)

  function StringsToValues(m: map<string, string>): map<string, Value> {
    map k | k in m :: Str(m[k])
  }

  function StepToMap(r: StepResult): map<string, Value> {
    map["outcome" := Str(r.outcome), "conclusion" := Str(r.conclusion),
        "outputs" := Obj(StringsToValues(r.outputs))]
  }

  /** Index digits between the brackets of an array part such as `[0]`; `None` for a property part. */
  function BracketText(part: string): Option<string> {
    if |part| > 2 && part[0] == '[' && part[|part| - 1] == ']' then Some(part[1..|part| - 1]) else None
  }

  function LookupValue(pr: Prims, parts: seq<string>, v: Value): Option<Value>
    decreases |parts|
  {
    if parts == [] then Some(v)
    else
      var part, rest := parts[0], parts[1..];
      match BracketText(part)
      case Some(digits) =>
        (match Atoi(digits)
         case None => None
         case Some(i) => if v.List? && 0 <= i < |v.vs| then LookupValue(pr, rest, v.vs[i]) else None)
      case None =>
        if !v.Obj? then None
        else if part in v.m then LookupValue(pr, rest, v.m[part])
        else match pr.foldKey(v.m, part)
             case Some(k) => if k in v.m then LookupValue(pr, rest, v.m[k]) else None
             case None => None
  }

  function Lookup(pr: Prims, c: EvalContext, parts: seq<string>): Option<Value> {
    if parts == [] then None
    else match parts[0]
         case "github" => LookupValue(pr, parts[1..], Obj(c.github))
         case "env" => LookupValue(pr, parts[1..], Obj(StringsToValues(c.env)))
         case "job" => LookupValue(pr, parts[1..], Obj(c.job))
         case "steps" =>
           if |parts| < 2 || parts[1] !in c.steps then None
           else LookupValue(pr, parts[2..], Obj(StepToMap(c.steps[parts[1]])))
         case "runner" => LookupValue(pr, parts[1..], Obj(c.runner))
         case "secrets" => LookupValue(pr, parts[1..], Obj(StringsToValues(c.secrets)))
         case "inputs" => LookupValue(pr, parts[1..], Obj(StringsToValues(c.inputs)))
         case _ => None
  }

  // ---- lookup laws ----

  /** `foldKey` answers with a key that matches up to case, whenever there is one. */
  ghost predicate FoldsKeys(pr: Prims) {
    forall m, k ::
      match pr.foldKey(m, k)
      case Some(x) => x in m && pr.toLower(x) == pr.toLower(k)
      case None => forall x | x in m :: pr.toLower(x) != pr.toLower(k)
  }

  /** On the way of the path, no object has two keys that differ in case only. */
  ghost predicate Unambiguous(pr: Prims, parts: seq<string>, v: Value)
    decreases |parts|
  {
    parts == [] ||
    (&& (v.Obj? ==> forall x, y | x in v.m && y in v.m && pr.toLower(x) == pr.toLower(y) :: x == y)
     && (v.Obj? ==> forall x | x in v.m :: Unambiguous(pr, parts[1..], v.m[x]))
     && (v.List? ==> forall i | 0 <= i < |v.vs| :: Unambiguous(pr, parts[1..], v.vs[i])))
  }

  /** Where keys are unambiguous the arbitrary order of map iteration cannot be observed. */
  lemma {:induction false} LookupOrderFree(pr: Prims, pr': Prims, parts: seq<string>, v: Value)
    requires FoldsKeys(pr) && FoldsKeys(pr') && pr.toLower == pr'.toLower
    requires Unambiguous(pr, parts, v)
    ensures LookupValue(pr, parts, v) == LookupValue(pr', parts, v)
    decreases |parts|
  {
    if parts != [] {
      var part := parts[0];
      if BracketText(part).Some? {
        var i := Atoi(BracketText(part).value);
        if i.Some? && v.List? && 0 <= i.value < |v.vs| {
          LookupOrderFree(pr, pr', parts[1..], v.vs[i.value]);
        }
      } else if v.Obj? {
        if part in v.m {
          LookupOrderFree(pr, pr', parts[1..], v.m[part]);
        } else {
          var k, k' := pr.foldKey(v.m, part), pr'.foldKey(v.m, part);
          if k.Some? && k'.Some? {
            LookupOrderFree(pr, pr', parts[1..], v.m[k.value]);
          }
        }
      }
    }
  }

  // ---- the context of a step ----

  datatype JobInfo = JobInfo(
    sha: string, ref: string, refName: string, eventName: string, repo: string, owner: string,
    actor: string, runID: string, runNumber: int, eventPayload: string, inputs: map<string, string>)

  function StatusString(s: JobStatus): string {
    match s
    case Failure => "failure"
    case Cancelled => "cancelled"
    case _ => "success"
  }

  function GithubContext(pr: Prims, info: JobInfo, jobID: string): map<string, Value> {
    var base := map[
      "sha" := Str(info.sha), "ref" := Str(info.ref), "ref_name" := Str(info.refName),
      "event_name" := Str(info.eventName), "repository" := Str(info.repo), "repository_owner" := Str(info.owner),
      "actor" := Str(info.actor), "run_id" := Str(info.runID), "run_number" := Int(info.runNumber),
      "workspace" := Str("/workspace"), "job" := Str(jobID)];
    if info.eventPayload == "" then base
    else match pr.fromJson(info.eventPayload)
         case Some(event) => base["event" := event]
         case None => base
  }

  const RUNNER: map<string, Value> := map[
    "os" := Str("Linux"), "arch" := Str("X64"), "temp" := Str("/runner/_temp"),
    "tool_cache" := Str("/runner/_tools"), "name" := Str("ghenkins")]

  /** Entries of `src` are copied over `dst`, in the arbitrary order of a map range. */
  method CopyInto(dst: map<string, string>, src: map<string, string>) returns (r: map<string, string>)
    ensures r == dst + src
  {
    r := dst;
    var todo := src.Keys;
    while todo != {}
      invariant todo <= src.Keys
      invariant r == dst + (src - todo)
      decreases todo
    {
      var k :| k in todo;
      r := r[k := src[k]];
      todo := todo - {k};
    }
  }

  lemma MergedEnv(a: map<string, string>, b: map<string, string>, c: map<string, string>, d: map<string, string>)
    ensures map[] + a == a
    ensures (a + b + c + d).Keys == a.Keys + b.Keys + c.Keys + d.Keys
    ensures forall k | k in a + b + c + d :: (a + b + c + d)[k] ==
              if k in d then d[k] else if k in c then c[k] else if k in b then b[k] else a[k]
  {
  }

  /** The most specific source of a variable wins: step, then live environment, then job, then workflow. */
  method BuildEvalContext(pr: Prims, wfEnv: map<string, string>, jobID: string, jobEnv: map<string, string>,
                          stepEnv: map<string, string>, results: map<string, StepResult>,
                          liveEnv: map<string, string>, info: JobInfo, secrets: map<string, string>,
                          status: JobStatus, cancelled: bool)
    returns (c: EvalContext)
    ensures c == ContextFor(pr, wfEnv, jobID, jobEnv, stepEnv, results, liveEnv, info, secrets, status, cancelled)
    ensures forall k | k in stepEnv :: k in c.env && c.env[k] == stepEnv[k]
    ensures forall k | k in liveEnv && k !in stepEnv :: k in c.env && c.env[k] == liveEnv[k]
    ensures forall k | k in jobEnv && k !in stepEnv && k !in liveEnv :: k in c.env && c.env[k] == jobEnv[k]
    ensures forall k | k in wfEnv && k !in stepEnv && k !in liveEnv && k !in jobEnv :: k in c.env && c.env[k] == wfEnv[k]
    ensures c.env.Keys == wfEnv.Keys + jobEnv.Keys + liveEnv.Keys + stepEnv.Keys
  {
    hide GithubContext, StatusString;
    MergedEnv(wfEnv, jobEnv, liveEnv, stepEnv);
    var env := CopyInto(map[], wfEnv);
    env := CopyInto(env, jobEnv);
    env := CopyInto(env, liveEnv);
    env := CopyInto(env, stepEnv);
    c := EvalContext(GithubContext(pr, info, jobID), env, map["status" := Str(StatusString(status))], results,
                     RUNNER, secrets, info.inputs, status, cancelled);
  }

  function ContextFor(pr: Prims, wfEnv: map<string, string>, jobID: string, jobEnv: map<string, string>,
                      stepEnv: map<string, string>, results: map<string, StepResult>,
                      liveEnv: map<string, string>, info: JobInfo, secrets: map<string, string>,
                      status: JobStatus, cancelled: bool): EvalContext {
    EvalContext(GithubContext(pr, info, jobID), wfEnv + jobEnv + liveEnv + stepEnv,
                map["status" := Str(StatusString(status))], results, RUNNER, secrets, info.inputs, status, cancelled)
  }
}

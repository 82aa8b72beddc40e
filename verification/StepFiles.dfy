/** What the steps of a job hand on through the magic files: the live environment and path, and each step's outputs. */
module StepFiles {
  import opened Text
  import opened Values
  import opened Context
  import EnvText
  import opened EnvFiles
  import opened Steps

  /** The file history behind the first `n` steps: a step that runs appends its chunk, then the files are read. */
  ghost function FileActions(job: JobSetup, world: World, init: ExecState, steps: seq<Step>,
                             chunk: nat -> Files, n: nat): seq<Action>
    requires n <= |steps|
  {
    if n == 0 then []
    else
      var acts := FileActions(job, world, init, steps, chunk, n - 1);
      if !Ran(job, world, init, steps, n - 1) then acts
      else
        var disk := world(n - 1, Before(job, world, init, steps, n - 1)).disk;
        acts + [Append(chunk(n - 1))] + [Read(Readable(disk))]
  }

  /** Each step that runs appends its chunk, and what is then read is what has been appended. */
  ghost predicate AppendsOnly(job: JobSetup, world: World, init: ExecState, steps: seq<Step>, chunk: nat -> Files) {
    forall n: nat | n < |steps| && Ran(job, world, init, steps, n) ::
      var disk := world(n, Before(job, world, init, steps, n)).disk;
      Readable(disk) ==> disk == OnDisk(Appended(FileActions(job, world, init, steps, chunk, n) + [Append(chunk(n))]))
  }

  /** The job's view of the files: offsets, environment and path all come from the same history. */
  ghost predicate InStep(env: map<string, string>, st: ExecState, h: History) {
    st.off == h.off && st.liveEnv == env + h.liveEnv && st.livePath == h.livePath
  }

  /** What a step that runs takes over from the files. */
  lemma AdvancedFiles(job: JobSetup, world: World, st: ExecState, s: Step, i: nat)
    requires ShouldRun(job, st, s)
    ensures var (delta, off) := ReadAll(st.off, world(i, st).disk);
            var st' := Advanced(job, world, st, s, i);
            st'.liveEnv == st.liveEnv + delta.env && st'.livePath == st.livePath + delta.paths && st'.off == off
  {
    hide ShouldRun, EffectiveId, ReadAll, RawResult;
  }

  /** A read that fails takes over nothing. */
  lemma UnreadableFiles(st: ExecState, disk: Disk)
    requires !Readable(disk)
    ensures var (delta, off) := ReadAll(st.off, disk);
            && st.liveEnv + delta.env == st.liveEnv && st.livePath + delta.paths == st.livePath && off == st.off
            && delta.outputs == map[]
  {
  }

  lemma StepInStep(job: JobSetup, world: World, env: map<string, string>, st: ExecState, s: Step, i: nat,
                   h: History, more: Files)
    requires InStep(env, st, h) && ShouldRun(job, st, s)
    requires var disk := world(i, st).disk; Readable(disk) ==> disk == OnDisk(Act(h, Append(more)).files)
    ensures InStep(env, Advanced(job, world, st, s, i), Act(Act(h, Append(more)), Read(Readable(world(i, st).disk))))
  {
    hide ShouldRun, Advanced, Behind, ParseAll, ReadAll;
    var disk := world(i, st).disk;
    AdvancedFiles(job, world, st, s, i);
    if Readable(disk) {
      OverlayAssoc(env, h.liveEnv, ReadAll(st.off, disk).0.env);
    } else {
      UnreadableFiles(st, disk);
    }
  }

  lemma OverlayAssoc(a: map<string, string>, b: map<string, string>, c: map<string, string>)
    ensures a + b + c == a + (b + c)
  {
  }

  /** One step more: nothing happens to the files, or a chunk is appended and they are read. */
  lemma FileActionsStep(job: JobSetup, world: World, init: ExecState, steps: seq<Step>, chunk: nat -> Files, n: nat)
    requires n < |steps|
    ensures var acts := FileActions(job, world, init, steps, chunk, n);
            FileActions(job, world, init, steps, chunk, n + 1) ==
            if !Ran(job, world, init, steps, n) then acts
            else acts + [Append(chunk(n))] + [Read(Readable(world(n, Before(job, world, init, steps, n)).disk))]
  {
    hide Ran, Before;
  }

  /** What is on disk behind a step that ran, if it can be read. */
  lemma DiskAt(job: JobSetup, world: World, init: ExecState, steps: seq<Step>, chunk: nat -> Files, n: nat)
    requires n < |steps| && AppendsOnly(job, world, init, steps, chunk) && Ran(job, world, init, steps, n)
    ensures var disk := world(n, Before(job, world, init, steps, n)).disk;
            var acts := FileActions(job, world, init, steps, chunk, n);
            Readable(disk) ==> disk == OnDisk(After(acts + [Append(chunk(n))]).files)
  {
    hide Ran, Before, After, FileActions, Appended, Unread, Behind, OnDisk;
    BytesConserved(FileActions(job, world, init, steps, chunk, n) + [Append(chunk(n))]);
  }

  lemma BeforeStep(job: JobSetup, world: World, init: ExecState, steps: seq<Step>, n: nat)
    requires n < |steps|
    ensures Before(job, world, init, steps, n + 1) ==
            Advanced(job, world, Before(job, world, init, steps, n), steps[n], n)
    ensures Ran(job, world, init, steps, n) == ShouldRun(job, Before(job, world, init, steps, n), steps[n])
  {
    hide Advanced, ShouldRun;
  }

  lemma {:induction false} FilesInStep(job: JobSetup, world: World, env: map<string, string>, steps: seq<Step>,
                                       chunk: nat -> Files, n: nat)
    requires n <= |steps| && AppendsOnly(job, world, Start(env), steps, chunk)
    ensures var init := Start(env);
            InStep(env, Before(job, world, init, steps, n), After(FileActions(job, world, init, steps, chunk, n)))
  {
    hide ShouldRun, Advanced, Act, InStep, AppendsOnly, FileActions, Before, After, Ran, Start, OnDisk;
    var init := Start(env);
    if n == 0 {
      StartInStep(job, world, env, steps, chunk);
    } else {
      var k := n - 1;
      FilesInStep(job, world, env, steps, chunk, k);
      FileActionsStep(job, world, init, steps, chunk, k);
      BeforeStep(job, world, init, steps, k);
      var acts := FileActions(job, world, init, steps, chunk, k);
      var st := Before(job, world, init, steps, k);
      if Ran(job, world, init, steps, k) {
        var a, r := Append(chunk(k)), Read(Readable(world(k, st).disk));
        DiskAt(job, world, init, steps, chunk, k);
        AfterSnoc(acts, a);
        AfterSnoc(acts + [a], r);
        StepInStep(job, world, env, st, steps[k], k, After(acts), chunk(k));
      } else {
        SkipInStep(job, world, env, st, steps[k], k, After(acts));
      }
    }
  }

  lemma StartInStep(job: JobSetup, world: World, env: map<string, string>, steps: seq<Step>, chunk: nat -> Files)
    ensures FileActions(job, world, Start(env), steps, chunk, 0) == []
    ensures InStep(env, Before(job, world, Start(env), steps, 0), After([]))
  {
    assert env + map[] == env;
  }

  lemma SkipInStep(job: JobSetup, world: World, env: map<string, string>, st: ExecState, s: Step, i: nat, h: History)
    requires InStep(env, st, h) && !ShouldRun(job, st, s)
    ensures InStep(env, Advanced(job, world, st, s, i), h)
  {
    hide ShouldRun;
  }

  lemma {:induction false} ActionsTidy(job: JobSetup, world: World, init: ExecState, steps: seq<Step>,
                                       chunk: nat -> Files, n: nat)
    requires n <= |steps| && forall i: nat | i < n :: Tidy(chunk(i))
    ensures AllTidy(FileActions(job, world, init, steps, chunk, n))
  {
    hide Ran, Before, Tidy, Readable;
    if n > 0 { ActionsTidy(job, world, init, steps, chunk, n - 1); }
  }

  /** The files could be read behind each of the first `n` steps that ran. */
  ghost predicate AllReadable(job: JobSetup, world: World, init: ExecState, steps: seq<Step>, n: nat)
    requires n <= |steps|
  {
    forall i: nat | i < n && Ran(job, world, init, steps, i) :: Readable(world(i, Before(job, world, init, steps, i)).disk)
  }

  /** Then nothing that was appended is left unread. */
  lemma {:induction false} NothingUnread(job: JobSetup, world: World, init: ExecState, steps: seq<Step>,
                                         chunk: nat -> Files, n: nat)
    requires n <= |steps| && AllReadable(job, world, init, steps, n)
    ensures Unread(FileActions(job, world, init, steps, chunk, n)) == NOTHING
  {
    hide Before, Ran, Readable;
    if n > 0 { NothingUnread(job, world, init, steps, chunk, n - 1); }
  }

  lemma FromHistory(env: map<string, string>, st: ExecState, h: History)
    requires InStep(env, st, h) && Consistent(h)
    ensures st.off.env <= |h.files.env| && st.off.path <= |h.files.path|
    ensures st.liveEnv == env + EnvText.ParseEnv(h.files.env[..st.off.env])
    ensures st.livePath == EnvText.ParsePath(h.files.path[..st.off.path])
  {
    hide EnvText.ParseEnv, EnvText.ParsePath;
  }

  lemma AtTheEnd(f: Files, off: Offsets)
    requires Within(off, f) && Behind(f, off) == NOTHING
    ensures f.env[..off.env] == f.env && f.path[..off.path] == f.path
  {
    assert f.env == f.env[..off.env] + f.env[off.env..] && f.path == f.path[..off.path] + f.path[off.path..];
  }

  /** At every point of the loop, the environment is the initial one overlaid with one parse of the environment file up
      to the offset, and the extra path entries are one parse of the path file up to its offset; and if the files could
      be read behind every step that ran, the offsets are the ends: it is one parse of all that the steps appended. */
  lemma LiveEnvIsWholeFile(job: JobSetup, world: World, env: map<string, string>, steps: seq<Step>,
                           chunk: nat -> Files, n: nat)
    requires n <= |steps| && AppendsOnly(job, world, Start(env), steps, chunk)
    requires forall i: nat | i < n :: Tidy(chunk(i))
    ensures var init := Start(env);
            var st := Before(job, world, init, steps, n);
            var all := Appended(FileActions(job, world, init, steps, chunk, n));
            && st.off.env <= |all.env| && st.off.path <= |all.path|
            && st.liveEnv == env + EnvText.ParseEnv(all.env[..st.off.env])
            && st.livePath == EnvText.ParsePath(all.path[..st.off.path])
            && (AllReadable(job, world, init, steps, n) ==>
                  st.liveEnv == env + EnvText.ParseEnv(all.env) && st.livePath == EnvText.ParsePath(all.path))
  {
    hide AppendsOnly, Before, FileActions, After, AllReadable, InStep, Consistent, Appended, Unread, Behind, Tidy,
         EnvText.ParseEnv, EnvText.ParsePath;
    var init := Start(env);
    var acts := FileActions(job, world, init, steps, chunk, n);
    FilesInStep(job, world, env, steps, chunk, n);
    ActionsTidy(job, world, init, steps, chunk, n);
    DeltasAddUp(acts);
    FromHistory(env, Before(job, world, init, steps, n), After(acts));
    BytesConserved(acts);
    if AllReadable(job, world, init, steps, n) {
      NothingUnread(job, world, init, steps, chunk, n);
      SameOffsets(env, Before(job, world, init, steps, n), After(acts));
      AtTheEnd(After(acts).files, After(acts).off);
    }
  }

  lemma SameOffsets(env: map<string, string>, st: ExecState, h: History)
    requires InStep(env, st, h)
    ensures st.off == h.off
  {
  }

  // ---- outputs ----

  /** What a read behind step `n`, which ran, gives for outputs. */
  lemma OutputsRead(job: JobSetup, world: World, env: map<string, string>, steps: seq<Step>, chunk: nat -> Files, n: nat)
    requires n < |steps| && AppendsOnly(job, world, Start(env), steps, chunk) && Ran(job, world, Start(env), steps, n)
    ensures var init := Start(env);
            var st := Before(job, world, init, steps, n);
            var news := Unread(FileActions(job, world, init, steps, chunk, n) + [Append(chunk(n))]).output;
            ReadAll(st.off, world(n, st).disk).0.outputs ==
            if Readable(world(n, st).disk) then EnvText.ParseEnv(news) else map[]
  {
    hide AppendsOnly, Before, FileActions, After, InStep, Appended, Unread, Behind, OnDisk, ReadAll, Ran, Start,
         EnvText.ParseEnv, EnvText.ParsePath;
    var init := Start(env);
    var st := Before(job, world, init, steps, n);
    var acts := FileActions(job, world, init, steps, chunk, n);
    var acts1 := acts + [Append(chunk(n))];
    if Readable(world(n, st).disk) {
      FilesInStep(job, world, env, steps, chunk, n);
      SameOffsets(env, st, After(acts));
      DiskAt(job, world, init, steps, chunk, n);
      AfterSnoc(acts, Append(chunk(n)));
      BytesConserved(acts1);
      ReadToEnd(After(acts1).files, After(acts1).off);
    } else {
      UnreadableFiles(st, world(n, st).disk);
    }
  }

  lemma UnreadMore(acts: seq<Action>, more: Files)
    ensures Unread(acts + [Append(more)]) == Followed(Unread(acts), more)
  {
    assert (acts + [Append(more)])[..|acts|] == acts;
  }

  /** With distinct ids, the outputs on record for a step that ran are its own, none if it came to an error, overlaid with
      one parse of what was appended to the output file up to and including that step and not read before. If the files
      could be read behind every step before it that ran, that is what this step appended. */
  lemma OutputsAreOwn(job: JobSetup, world: World, env: map<string, string>, steps: seq<Step>, chunk: nat -> Files,
                      i: nat, n: nat)
    requires i < n <= |steps| && AppendsOnly(job, world, Start(env), steps, chunk) && Ran(job, world, Start(env), steps, i)
    requires forall j, k | 0 <= j < k < |steps| :: EffectiveId(steps[j], j) != EffectiveId(steps[k], k)
    ensures var init := Start(env);
            var run := world(i, Before(job, world, init, steps, i));
            var id, results := EffectiveId(steps[i], i), Before(job, world, init, steps, n).results;
            var own := if run.err then map[] else run.result.outputs;
            var news := Unread(FileActions(job, world, init, steps, chunk, i) + [Append(chunk(i))]).output;
            && id in results
            && results[id].outputs == (if Readable(run.disk) then own + EnvText.ParseEnv(news) else own)
            && (AllReadable(job, world, init, steps, i) ==> news == chunk(i).output)
  {
    hide AppendsOnly, FileActions, AllReadable, Unread, Ran, EffectiveId, Before, Tells, Readable, Start,
         EnvText.ParseEnv;
    var init := Start(env);
    OneResultEach(job, world, env, steps, n);
    OutputsRead(job, world, env, steps, chunk, i);
    RecordedOutputs(job, world, init, steps, i);
    if AllReadable(job, world, init, steps, i) {
      NothingUnread(job, world, init, steps, chunk, i);
      UnreadMore(FileActions(job, world, init, steps, chunk, i), chunk(i));
    }
  }

  lemma RecordedOutputs(job: JobSetup, world: World, init: ExecState, steps: seq<Step>, i: nat)
    requires i < |steps| && Ran(job, world, init, steps, i)
    ensures var st := Before(job, world, init, steps, i);
            var run := world(i, st);
            Recorded(job, world, init, steps, i).outputs ==
            (if run.err then map[] else run.result.outputs) + ReadAll(st.off, run.disk).0.outputs
  {
    hide Ran, Before, ReadAll;
  }
}

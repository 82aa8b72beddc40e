/** The magic files of a job: offsets into append-only files, advanced by each successful read. */
module EnvFiles {
  import opened Text
  import opened EnvText
  import opened EnvDelta

  /** What is on disk; a file that cannot be read is `None`. */
  datatype Disk = Disk(env: Option<string>, output: Option<string>, path: Option<string>)

  datatype Offsets = Offsets(env: nat, output: nat, path: nat)

  datatype Delta = Delta(env: map<string, string>, outputs: map<string, string>, paths: seq<string>)

  /** The bytes behind an offset; an offset past the end reads nothing and stays. */
  function NewBytes(file: string, off: nat): string {
    if off <= |file| then file[off..] else ""
  }

  function ReadNewBytes(file: Option<string>, off: nat): Option<(string, nat)> {
    match file
    case None => None
    case Some(s) => Some((NewBytes(s, off), off + |NewBytes(s, off)|))
  }

  predicate Readable(disk: Disk) {
    disk.env.Some? && disk.output.Some? && disk.path.Some?
  }

  /** The contents of the three files, or of a piece of each. */
  datatype Files = Files(env: string, output: string, path: string)

  const NOTHING := Files("", "", "")

  function OnDisk(f: Files): Disk {
    Disk(Some(f.env), Some(f.output), Some(f.path))
  }

  function Followed(a: Files, b: Files): Files {
    Files(a.env + b.env, a.output + b.output, a.path + b.path)
  }

  /** What lies behind the offsets. */
  function Behind(f: Files, off: Offsets): Files {
    Files(NewBytes(f.env, off.env), NewBytes(f.output, off.output), NewBytes(f.path, off.path))
  }

  function ParseAll(f: Files): Delta {
    Delta(ParseEnv(f.env), ParseEnv(f.output), ParsePath(f.path))
  }

  /** What a caller that ignores failures gets from a read: the delta, empty on failure, and the new offsets. */
  function ReadAll(off: Offsets, disk: Disk): (Delta, Offsets) {
    if !Readable(disk) then (Delta(map[], map[], []), off)
    else
      var f := Files(disk.env.value, disk.output.value, disk.path.value);
      (ParseAll(Behind(f, off)),
       Offsets(Advance(f.env, off.env), Advance(f.output, off.output), Advance(f.path, off.path)))
  }

  class EnvFiles {
    var envOff: nat
    var outputOff: nat
    var pathOff: nat

    constructor ()
      ensures envOff == 0 && outputOff == 0 && pathOff == 0
    {
      envOff, outputOff, pathOff := 0, 0, 0;
    }

    function Position(): Offsets
      reads this
    {
      Offsets(envOff, outputOff, pathOff)
    }

    /** All three files are read before any offset moves: a failed call changes nothing. */
    method ReadDelta(disk: Disk) returns (r: Option<Delta>)
      modifies this
      ensures r.Some? <==> Readable(disk)
      ensures r.None? ==> Position() == old(Position())
      ensures r.Some? ==> (r.value, Position()) == ReadAll(old(Position()), disk)
      ensures r.Some? && old(envOff) <= |disk.env.value| ==>
                r.value.env == ParseEnv(disk.env.value[old(envOff)..]) && envOff == |disk.env.value|
      ensures r.Some? && old(outputOff) <= |disk.output.value| ==>
                r.value.outputs == ParseEnv(disk.output.value[old(outputOff)..]) && outputOff == |disk.output.value|
      ensures r.Some? && old(pathOff) <= |disk.path.value| ==>
                r.value.paths == ParsePath(disk.path.value[old(pathOff)..]) && pathOff == |disk.path.value|
      ensures r.Some? && old(envOff) > |disk.env.value| ==> r.value.env == ParseEnv("") && envOff == old(envOff)
      ensures r.Some? && old(outputOff) > |disk.output.value| ==>
                r.value.outputs == ParseEnv("") && outputOff == old(outputOff)
      ensures r.Some? && old(pathOff) > |disk.path.value| ==> r.value.paths == ParsePath("") && pathOff == old(pathOff)
    {
      hide ParseEnv, ParsePath, Lines;
      var e := ReadNewBytes(disk.env, envOff);
      if e.None? { return None; }
      var o := ReadNewBytes(disk.output, outputOff);
      if o.None? { return None; }
      var p := ReadNewBytes(disk.path, pathOff);
      if p.None? { return None; }
      var env := ParseEnvFile(e.value.0);
      var outputs := ParseEnvFile(o.value.0);
      var paths := ParsePathFile(p.value.0);
      envOff, outputOff, pathOff := e.value.1, o.value.1, p.value.1;
      r := Some(Delta(env, outputs, paths));
    }
  }

  /** A read leaves the offset at the end of the file, never before where it was. */
  function Advance(file: string, off: nat): nat {
    if off <= |file| then |file| else off
  }

  // ---- any history of appends and reads ----

  /** Something is appended to the files, or they are read, successfully or not. */
  datatype Action = Append(more: Files) | Read(ok: bool)

  /** The files so far, the offsets, everything read so far in order, what the last successful read gave, and the merged
      results. */
  datatype History = History(files: Files, off: Offsets, read: Files, delta: Delta,
                             liveEnv: map<string, string>, livePath: seq<string>)

  const EMPTY := History(NOTHING, Offsets(0, 0, 0), NOTHING, Delta(map[], map[], []), map[], [])

  function Act(h: History, a: Action): History {
    match a
    case Append(more) => h.(files := Followed(h.files, more))
    case Read(ok) =>
      if !ok then h
      else
        var (delta, off) := ReadAll(h.off, OnDisk(h.files));
        h.(off := off, read := Followed(h.read, Behind(h.files, h.off)), delta := delta,
           liveEnv := h.liveEnv + delta.env, livePath := h.livePath + delta.paths)
  }

  function After(acts: seq<Action>): History {
    if acts == [] then EMPTY else Act(After(acts[..|acts| - 1]), acts[|acts| - 1])
  }

  lemma AfterSnoc(acts: seq<Action>, a: Action)
    ensures After(acts + [a]) == Act(After(acts), a)
  {
    assert (acts + [a])[..|acts|] == acts;
  }

  /** What was appended since the last successful read. */
  function Unread(acts: seq<Action>): Files {
    if acts == [] then NOTHING
    else
      var front := acts[..|acts| - 1];
      match acts[|acts| - 1]
      case Append(more) => Followed(Unread(front), more)
      case Read(true) => NOTHING
      case Read(false) => Unread(front)
  }

  /** All that was appended. */
  function Appended(acts: seq<Action>): Files {
    if acts == [] then NOTHING
    else
      var front := acts[..|acts| - 1];
      match acts[|acts| - 1]
      case Append(more) => Followed(Appended(front), more)
      case Read(_) => Appended(front)
  }

  ghost predicate Within(off: Offsets, f: Files) {
    off.env <= |f.env| && off.output <= |f.output| && off.path <= |f.path|
  }

  lemma AppendBehind(f: Files, off: Offsets, more: Files)
    requires Within(off, f)
    ensures Within(off, Followed(f, more)) && Behind(Followed(f, more), off) == Followed(Behind(f, off), more)
  {
    assert (f.env + more.env)[off.env..] == f.env[off.env..] + more.env;
    assert (f.output + more.output)[off.output..] == f.output[off.output..] + more.output;
    assert (f.path + more.path)[off.path..] == f.path[off.path..] + more.path;
  }

  lemma ReadToEnd(f: Files, off: Offsets)
    requires Within(off, f)
    ensures ReadAll(off, OnDisk(f)) == (ParseAll(Behind(f, off)), Offsets(|f.env|, |f.output|, |f.path|))
    ensures Behind(f, Offsets(|f.env|, |f.output|, |f.path|)) == NOTHING
  {
    hide ParseAll;
  }

  lemma FollowedAssoc(a: Files, b: Files, c: Files)
    ensures Followed(Followed(a, b), c) == Followed(a, Followed(b, c)) && Followed(a, NOTHING) == a
  {
    assert a.env + b.env + c.env == a.env + (b.env + c.env);
    assert a.output + b.output + c.output == a.output + (b.output + c.output);
    assert a.path + b.path + c.path == a.path + (b.path + c.path);
  }

  /** Conservation, over every history whatever is appended: all three files hold what was appended, what was read so far
      and what was appended since the last successful read make up each file, and the latter is what lies behind the
      offset. So each byte is read once, in order. */
  lemma {:induction false} BytesConserved(acts: seq<Action>)
    ensures var h := After(acts);
            && h.files == Appended(acts) && Within(h.off, h.files)
            && Behind(h.files, h.off) == Unread(acts) && Followed(h.read, Unread(acts)) == h.files
  {
    if acts != [] {
      var n := |acts| - 1;
      BytesConserved(acts[..n]);
      hide Behind, ParseAll, ReadAll, OnDisk, Followed;
      var h := After(acts[..n]);
      match acts[n]
      case Append(more) =>
        AppendBehind(h.files, h.off, more);
        FollowedAssoc(h.read, Unread(acts[..n]), more);
      case Read(true) =>
        ReadToEnd(h.files, h.off);
        FollowedAssoc(h.files, h.files, h.files);
        ReadWithin(h.files);
      case Read(false) =>
    } else {
      NothingRead();
    }
  }

  lemma NothingRead()
    ensures Behind(NOTHING, Offsets(0, 0, 0)) == NOTHING && Followed(NOTHING, NOTHING) == NOTHING
  {
  }

  lemma ReadWithin(f: Files)
    ensures Within(Offsets(|f.env|, |f.output|, |f.path|), f)
  {
  }

  /** A successful read gives the parse of exactly what was appended to each file since the last one. */
  lemma ReadGivesUnread(acts: seq<Action>)
    ensures var u := Unread(acts);
            After(acts + [Read(true)]).delta == Delta(ParseEnv(u.env), ParseEnv(u.output), ParsePath(u.path))
  {
    BytesConserved(acts);
    AfterSnoc(acts, Read(true));
    hide ParseEnv, ParsePath, After, Unread, Behind, Appended;
    ReadToEnd(After(acts).files, After(acts).off);
  }

  /** Steps append complete records and whole path lines. */
  predicate Tidy(f: Files) {
    Complete(f.env) && Last(f.path) == ""
  }

  ghost predicate Consistent(h: History) {
    && Within(h.off, h.files)
    && h.read == Files(h.files.env[..h.off.env], h.files.output[..h.off.output], h.files.path[..h.off.path])
    && Tidy(h.read) && Tidy(Behind(h.files, h.off))
    && h.liveEnv == ParseEnv(h.read.env)
    && h.livePath == ParsePath(h.read.path)
  }

  lemma LastConcat(a: string, b: string)
    requires Last(a) == "" && Last(b) == ""
    ensures Last(a + b) == ""
  {
    hide Lines;
    LinesConcat(a, b);
    assert Last(a) + b == b;
  }

  lemma EmptyComplete()
    ensures Complete("") && Last("") == "" && ParseEnv("") == map[] && ParsePath("") == []
  {
    EmptyData("");
    assert Lines("") == [""] && [""][..0] == [];
    NonEmptyOne("");
  }

  lemma TidyFollowed(a: Files, b: Files)
    requires Tidy(a) && Tidy(b)
    ensures Tidy(Followed(a, b))
  {
    hide Complete, Last;
    CompleteConcat(a.env, b.env);
    LastConcat(a.path, b.path);
  }

  lemma TidyNothing()
    ensures Tidy(NOTHING)
  {
    hide Complete, Last, ParseEnv, ParsePath;
    EmptyComplete();
  }

  lemma AppendConsistent(h: History, more: Files)
    requires Consistent(h) && Tidy(more)
    ensures Consistent(Act(h, Append(more)))
  {
    hide Tidy, ParseEnv, ParsePath, Behind;
    AppendBehind(h.files, h.off, more);
    TidyFollowed(Behind(h.files, h.off), more);
    var f, f' := h.files, Followed(h.files, more);
    assert f'.env[..h.off.env] == f.env[..h.off.env] && f'.output[..h.off.output] == f.output[..h.off.output]
        && f'.path[..h.off.path] == f.path[..h.off.path];
  }

  lemma ReadConsistent(h: History)
    requires Consistent(h)
    ensures Consistent(Act(h, Read(true)))
  {
    hide Tidy, ParseEnv, ParsePath, ReadAll;
    var f, u := h.files, Behind(h.files, h.off);
    var h' := Act(h, Read(true));
    ReadToEnd(f, h.off);
    assert f.env[..h.off.env] + u.env == f.env && f.output[..h.off.output] + u.output == f.output
        && f.path[..h.off.path] + u.path == f.path;
    assert f.env[..|f.env|] == f.env && f.output[..|f.output|] == f.output && f.path[..|f.path|] == f.path;
    TidyFollowed(h.read, u);
    TidyNothing();
    MergedDelta(h.read, u);
  }

  /** Deltas of tidy pieces merge to the parse of the whole. */
  lemma MergedDelta(a: Files, b: Files)
    requires Tidy(a) && Tidy(b)
    ensures ParseEnv(a.env) + ParseAll(b).env == ParseEnv(a.env + b.env)
    ensures ParsePath(a.path) + ParseAll(b).paths == ParsePath(a.path + b.path)
  {
    hide Complete, Last, ParseEnv, ParsePath;
    ParseSplit(a.env, b.env);
    PathsIffWholeLines(a.path);
  }

  ghost predicate AllTidy(acts: seq<Action>) {
    forall a | a in acts && a.Append? :: Tidy(a.more)
  }

  /** Over every history of tidy appends and reads: each byte in front of the offsets was read exactly once, in order,
      and the merged deltas are what parsing all of it at once gives. */
  lemma {:induction false} DeltasAddUp(acts: seq<Action>)
    requires AllTidy(acts)
    ensures Consistent(After(acts))
  {
    hide Consistent, Act, Tidy;
    if acts == [] {
      EmptyConsistent();
    } else {
      var n := |acts| - 1;
      DeltasAddUp(acts[..n]);
      var h := After(acts[..n]);
      match acts[n]
      case Append(more) => AppendConsistent(h, more);
      case Read(true) => ReadConsistent(h);
      case Read(false) => FailedRead(h);
    }
  }

  lemma EmptyConsistent()
    ensures Consistent(EMPTY)
  {
    hide Tidy, ParseEnv, ParsePath;
    EmptyComplete();
    TidyNothing();
  }

  lemma FailedRead(h: History)
    ensures Act(h, Read(false)) == h
  {
  }
}

/** Streaming a run's log to a client while the run goroutine writes it, in any interleaving of the two. */
module LogStream {
  import opened Text
  import opened Store

  /** The goroutine: before creating the file, running the jobs, closed the file, ready to record, recorded. */
  datatype Writer = NotYet | Writing(file: bool) | Ended(err: bool) | Reported | Recorded

  /** The handler: before its first look at the status, at the loop head, draining, about to look at the status,
      draining for the last time, waiting, done. */
  datatype Reader = Begin | Head | Drain | Check | LastDrain | Wait | Gone

  /** `own` says that the status was written by the goroutine itself. `seen` and `fileOpen` record what the handler found
      when it read a terminal status: whether the goroutine had written it, and whether the file was open. */
  datatype State = State(
    log: Option<string>, status: RunStatus, own: bool, writer: Writer, done: bool,
    reader: Reader, pos: Option<nat>, sent: string, seen: bool, fileOpen: bool)

  const INITIAL := State(None, Queued, true, NotYet, false, Begin, None, "", false, false)

  const BUFFER := 32 * 1024

  datatype Event =
    | MarkRunning(live: bool)
    | CreateFile(ok: bool)
    | Write(chunk: string)
    | CloseFile(err: bool)
    | ReportError(text: string, ok: bool)
    | Record(final: RunStatus, live: bool)
    | CancelFire
    | CancelWrite
    | First
    | Open
    | Read(n: nat)
    | AtEnd
    | Look(failed: bool)
    | Wake(left: bool)

  function Content(s: State): string {
    match s.log case None => "" case Some(t) => t
  }

  /** Nothing, or nothing more, to read right now. */
  predicate Drained(s: State) {
    s.pos.Some? ==> s.pos.value >= |Content(s)|
  }

  predicate Enabled(s: State, e: Event) {
    match e
    case MarkRunning(live) => s.writer.NotYet? && s.status == Queued && (live ==> !s.done)
    case CreateFile(_) => s.writer.NotYet?
    case Write(_) => s.writer.Writing?
    case CloseFile(_) => s.writer.Writing?
    case ReportError(_, ok) => s.writer.Ended?
    case Record(f, live) => s.writer.Reported? && f in {Success, Failure, Error} && (live ==> !s.done)
    case CancelFire => true
    case CancelWrite => s.done
    case First => s.reader == Begin
    case Open => s.reader == Head
    case Read(n) =>
      && s.reader in {Drain, LastDrain} && s.pos.Some?
      && 1 <= n <= BUFFER && s.pos.value + n <= |Content(s)|
    case AtEnd => s.reader in {Drain, LastDrain} && Drained(s)
    case Look(_) => s.reader == Check
    case Wake(_) => s.reader == Wait
  }

  function Opened(s: State): Option<nat> {
    if s.pos.None? && s.log.Some? then Some(0) else s.pos
  }

  function Step(s: State, e: Event): State
    requires Enabled(s, e)
  {
    match e
    case MarkRunning(live) => if live then s.(status := Running, own := true) else s
    case CreateFile(ok) => s.(writer := Writing(ok), log := if ok then Some("") else s.log)
    case Write(chunk) => if s.writer.file then s.(log := Some(Content(s) + chunk)) else s
    case CloseFile(err) => s.(writer := Ended(err))
    case ReportError(text, ok) =>
      s.(writer := Reported, log := if s.writer.err && ok then Some(Content(s) + text) else s.log)
    case Record(f, live) => if live then s.(writer := Recorded, status := f, own := true) else s.(writer := Recorded)
    case CancelFire => s.(done := true)
    case CancelWrite => s.(status := Canceled, own := false)
    case First =>
      // A finished run is copied in one go: open once, then drain to the end.
      if IsTerminal(s.status) then
        s.(reader := LastDrain, pos := Opened(s), seen := s.own, fileOpen := s.log.Some?)
      else s.(reader := Head)
    case Open => s.(reader := Drain, pos := Opened(s))
    case Read(n) =>
      s.(sent := s.sent + Content(s)[s.pos.value..s.pos.value + n], pos := Some(s.pos.value + n))
    case AtEnd => s.(reader := if s.reader == Drain then Check else Gone)
    case Look(failed) =>
      if failed then s.(reader := LastDrain, seen := false)
      else if IsTerminal(s.status) then s.(reader := LastDrain, seen := s.own, fileOpen := s.pos.Some?)
      else s.(reader := Wait)
    case Wake(left) => s.(reader := if left then Gone else Head, seen := false)
  }

  /** What was sent is the log up to the read position; a terminal status of the goroutine's own comes after its last
      write; a handler that has seen one and is done stands at the end. */
  ghost predicate Inv(s: State) {
    && (s.pos.Some? ==> s.log.Some? && s.pos.value <= |Content(s)| && s.sent == Content(s)[..s.pos.value])
    && (s.pos.None? ==> s.sent == "")
    && (s.writer.NotYet? ==> s.log.None?)
    && (s.own && IsTerminal(s.status) ==> s.writer.Recorded?)
    && (s.seen ==> s.writer.Recorded? && s.fileOpen == s.pos.Some? && s.reader in {LastDrain, Gone})
    && (s.seen && s.reader == Gone ==> Drained(s))
  }

  lemma ReadSends(t: string, pos: nat, n: nat)
    requires pos + n <= |t|
    ensures t[..pos] + t[pos..pos + n] == t[..pos + n]
  {
  }

  /** The goroutine's and the cancellation's own steps. */
  predicate ByWriter(e: Event) {
    e.MarkRunning? || e.CreateFile? || e.Write? || e.CloseFile? || e.ReportError? || e.Record? || e.CancelFire? || e.CancelWrite?
  }

  /** What is appended behind the read position does not change what was read. */
  lemma AppendKeepsRead(t: string, more: string, pos: nat)
    requires pos <= |t|
    ensures (t + more)[..pos] == t[..pos]
  {
  }

  lemma AppendInv(s: State, e: Event)
    requires Inv(s) && Enabled(s, e) && (e.CreateFile? || e.Write? || e.ReportError?)
    ensures Inv(Step(s, e))
  {
    var more := if e.Write? then e.chunk else if e.ReportError? then e.text else "";
    if s.pos.Some? {
      AppendKeepsRead(Content(s), more, s.pos.value);
    }
  }

  lemma WriterInv(s: State, e: Event)
    requires Inv(s) && Enabled(s, e) && ByWriter(e) && !e.CreateFile? && !e.Write? && !e.ReportError?
    ensures Inv(Step(s, e))
  {
  }

  lemma ReadInv(s: State, n: nat)
    requires Inv(s) && Enabled(s, Read(n))
    ensures Inv(Step(s, Read(n)))
  {
    ReadSends(Content(s), s.pos.value, n);
  }

  lemma ReaderInv(s: State, e: Event)
    requires Inv(s) && Enabled(s, e) && !ByWriter(e) && !e.Read?
    ensures Inv(Step(s, e))
  {
  }

  lemma StepKeepsInv(s: State, e: Event)
    requires Inv(s) && Enabled(s, e)
    ensures Inv(Step(s, e))
  {
    hide Inv, Enabled, Step;
    if e.CreateFile? || e.Write? || e.ReportError? { AppendInv(s, e); }
    else if ByWriter(e) { WriterInv(s, e); }
    else if e.Read? { ReadInv(s, e.n); }
    else { ReaderInv(s, e); }
  }

  /** When the handler ends, and when it starts to drain for the last time: at a run that has finished, been canceled or
      cannot be looked up, and at no other. */
  lemma ReaderMoves(s: State, e: Event)
    requires Enabled(s, e)
    ensures var s' := Step(s, e);
            var over := s.status in {Success, Failure, Error, Canceled};
            && (s.reader != Gone ==> (s'.reader == Gone <==> e == Wake(true) || (e == AtEnd && s.reader == LastDrain)))
            && (s.reader != LastDrain ==>
                  (s'.reader == LastDrain <==> (e == First && over) || (e.Look? && (e.failed || over))))
            && (e == Look(false) && !over ==> s'.reader == Wait)
            && (e == Wake(false) || (e == First && !over) ==> s'.reader == Head)
  {
    hide Content, Drained, Opened, Enabled, Step;
    if ByWriter(e) || e.Read? { ReaderRests(s, e); } else { ReaderTurns(s, e); }
  }

  lemma ReaderRests(s: State, e: Event)
    requires Enabled(s, e) && (ByWriter(e) || e.Read?)
    ensures Step(s, e).reader == s.reader
  {
    hide Content, Drained;
  }

  lemma ReaderTurns(s: State, e: Event)
    requires Enabled(s, e) && !ByWriter(e) && !e.Read?
    ensures var over := s.status in {Success, Failure, Error, Canceled};
            Step(s, e).reader ==
            match e
            case First => if over then LastDrain else Head
            case Open => Drain
            case AtEnd => if s.reader == Drain then Check else Gone
            case Look(failed) => if failed || over then LastDrain else Wait
            case Wake(left) => if left then Gone else Head
            case _ => s.reader
    ensures s.reader in {Begin, Head, Check, Wait, Drain, LastDrain}
    ensures e == AtEnd ==> s.reader in {Drain, LastDrain}
  {
    hide Content, Drained, Opened;
  }

  ghost predicate Possible(evs: seq<Event>)
    decreases |evs|, 0
  {
    evs == [] || (Possible(evs[..|evs| - 1]) && Enabled(After(evs[..|evs| - 1]), evs[|evs| - 1]))
  }

  ghost function After(evs: seq<Event>): State
    requires Possible(evs)
    decreases |evs|, 1
  {
    if evs == [] then INITIAL else Step(After(evs[..|evs| - 1]), evs[|evs| - 1])
  }

  lemma {:induction false} AlwaysInv(evs: seq<Event>)
    requires Possible(evs)
    ensures Inv(After(evs))
  {
    if evs != [] {
      var n := |evs| - 1;
      AlwaysInv(evs[..n]);
      StepKeepsInv(After(evs[..n]), evs[n]);
    }
  }

  /** At every point of every interleaving the bytes sent are the log up to the read position, in order and each once;
      nothing is sent before the file is open. */
  lemma SentIsPrefix(evs: seq<Event>)
    requires Possible(evs)
    ensures var s := After(evs);
            if s.pos.Some? then s.pos.value <= |Content(s)| && s.sent == Content(s)[..s.pos.value] else s.sent == ""
  {
    AlwaysInv(evs);
    hide After, Possible, Drained;
  }

  // ---- when the whole log has been sent ----

  /** The goroutine has nothing left to write into the log. */
  predicate Finished(w: Writer) {
    w.Recorded? || w.Reported? || (w.Ended? && !w.err)
  }

  lemma FinishedStep(s: State, e: Event)
    requires Finished(s.writer) && Enabled(s, e)
    ensures Finished(Step(s, e).writer) && Step(s, e).log == s.log
  {
  }

  /** Once the goroutine has nothing left to write, the log never changes again. */
  lemma {:induction false} LogFrozen(evs: seq<Event>, more: seq<Event>)
    requires Possible(evs + more)
    ensures Possible(evs)
    ensures Finished(After(evs).writer) ==>
              Finished(After(evs + more).writer) && After(evs + more).log == After(evs).log
    decreases |more|
  {
    hide Finished, Step, Enabled;
    if more == [] {
      assert evs + more == evs;
    } else {
      var n := |more| - 1;
      var all := evs + more;
      assert all[..|all| - 1] == evs + more[..n] && all[|all| - 1] == more[n];
      LogFrozen(evs, more[..n]);
      if Finished(After(evs).writer) {
        FinishedStep(After(evs + more[..n]), more[n]);
      }
    }
  }

  lemma Extend(evs: seq<Event>, e: Event)
    requires Possible(evs) && Enabled(After(evs), e)
    ensures Possible(evs + [e]) && After(evs + [e]) == Step(After(evs), e)
  {
    assert (evs + [e])[..|evs|] == evs;
  }

  lemma ExtendTwo(evs: seq<Event>, e: Event, e': Event)
    requires Possible(evs) && Enabled(After(evs), e) && Enabled(Step(After(evs), e), e')
    ensures Possible(evs + [e, e']) && After(evs + [e, e']) == Step(Step(After(evs), e), e')
  {
    hide Possible, After, Enabled, Step;
    Extend(evs, e);
    Extend(evs + [e], e');
    assert evs + [e] + [e'] == evs + [e, e'];
  }

  /** A goroutine that is not finished can still append something. */
  lemma UnfinishedGrows(evs: seq<Event>) returns (more: seq<Event>)
    requires Possible(evs) && !Finished(After(evs).writer)
    ensures Possible(evs + more) && Content(After(evs + more)) == Content(After(evs)) + "x"
  {
    AlwaysInv(evs);
    hide Possible, After;
    var s := After(evs);
    match s.writer
    case NotYet =>
      more := [CreateFile(true), Write("x")];
      assert "" + "x" == "x";
      ExtendTwo(evs, CreateFile(true), Write("x"));
    case Writing(true) =>
      more := [Write("x")];
      Extend(evs, Write("x"));
    case Writing(false) =>
      more := [CloseFile(true), ReportError("x", true)];
      ExtendTwo(evs, CloseFile(true), ReportError("x", true));
    case Ended(_) =>
      more := [ReportError("x", true)];
      Extend(evs, ReportError("x", true));
  }

  /** At the end of its last drain the handler has sent what is in the log exactly if it has the file open, or there is
      nothing in it. */
  lemma EndOfDrain(evs: seq<Event>)
    requires Possible(evs + [AtEnd]) && Possible(evs) && After(evs).reader == LastDrain
    ensures var s := After(evs + [AtEnd]); s.sent == Content(s) <==> s.pos.Some? || Content(s) == ""
  {
    AlwaysInv(evs);
    assert (evs + [AtEnd])[..|evs|] == evs;
    var s := After(evs);
    assert Enabled(s, AtEnd) && After(evs + [AtEnd]) == Step(s, AtEnd);
    hide After, Possible;
    if s.pos.Some? {
      assert Content(s)[..|Content(s)|] == Content(s);
    }
  }

  /** The exact condition, over every way in which a handler reaches the end of its last drain: on the run's own status,
      on a cancellation's, or because the status could not be read. What it has sent is the entire log for good, whatever
      happens afterwards, if and only if by then the goroutine had nothing left to write, and the handler had the file
      open or there was nothing in it. */
  lemma WholeLogIff(evs: seq<Event>)
    requires Possible(evs + [AtEnd]) && Possible(evs) && After(evs).reader == LastDrain
    ensures var s := After(evs + [AtEnd]);
            (forall more | Possible(evs + [AtEnd] + more) :: s.sent == Content(After(evs + [AtEnd] + more)))
            <==> Finished(s.writer) && (s.pos.Some? || Content(s) == "")
  {
    hide Possible, After, Enabled, Step, Finished;
    var end := evs + [AtEnd];
    var s := After(end);
    EndOfDrain(evs);
    if Finished(s.writer) {
      forall more | Possible(end + more) ensures Content(After(end + more)) == Content(s) {
        LogFrozen(end, more);
      }
      assert end + [] == end;
    } else {
      var more := UnfinishedGrows(end);
      assert end + [] == end;
      assert s.sent != Content(After(end + [])) || s.sent != Content(After(end + more));
    }
  }

  /** In particular: a handler that ends on a terminal status of the run's own, with the file open, has sent the entire
      log for good. */
  lemma WholeLogForGood(evs: seq<Event>, more: seq<Event>)
    requires Possible(evs + [AtEnd] + more) && Possible(evs + [AtEnd]) && Possible(evs)
    requires After(evs).reader == LastDrain && After(evs).seen && After(evs).fileOpen
    ensures After(evs + [AtEnd]).sent == Content(After(evs + [AtEnd] + more))
  {
    AlwaysInv(evs);
    assert (evs + [AtEnd])[..|evs|] == evs;
    assert After(evs + [AtEnd]) == Step(After(evs), AtEnd);
    hide After, Possible;
    WholeLogIff(evs);
  }

  // ---- the two ways to lose bytes ----

  ghost predicate Reachable(s: State) {
    exists evs :: Possible(evs) && After(evs) == s
  }

  lemma ReachStart()
    ensures Reachable(INITIAL)
  {
    assert Possible([]) && After([]) == INITIAL;
  }

  lemma ReachStep(s: State, e: Event)
    requires Reachable(s) && Enabled(s, e)
    ensures Reachable(Step(s, e))
  {
    var evs :| Possible(evs) && After(evs) == s;
    Extend(evs, e);
  }

  lemma Reach(s: State, e: Event, s': State)
    requires Reachable(s) && Enabled(s, e) && Step(s, e) == s'
    ensures Reachable(s')
  {
    ReachStep(s, e);
  }

  /** The handler has tried to open the file, in vain, and is about to look at the status. */
  lemma ReachVain()
    ensures Reachable(INITIAL.(reader := Check))
  {
    hide Reachable;
    ReachStart();
    Reach(INITIAL, First, INITIAL.(reader := Head));
    Reach(INITIAL.(reader := Head), Open, INITIAL.(reader := Drain));
    Reach(INITIAL.(reader := Drain), AtEnd, INITIAL.(reader := Check));
  }

  lemma ReachWritten(s: State)
    requires Reachable(s) && s.writer.NotYet? && s.log.None? && !s.done
    ensures Reachable(s.(writer := Recorded, log := Some("x"), status := Success, own := true))
  {
    hide Reachable;
    var a := s.(writer := Writing(true), log := Some(""));
    var b := a.(log := Some("x"));
    assert "" + "x" == "x";
    Reach(s, CreateFile(true), a);
    Reach(a, Write("x"), b);
    Reach(b, CloseFile(false), b.(writer := Ended(false)));
    Reach(b.(writer := Ended(false)), ReportError("", false), b.(writer := Reported));
    Reach(b.(writer := Reported), Record(Success, true), b.(writer := Recorded, status := Success, own := true));
  }

  /** The file appears and the run ends between the handler's attempt to open it and its look at the status: the whole
      log is lost. */
  lemma LostWhenNotOpen()
    ensures exists s :: Reachable(s) && s.reader == Gone && s.seen && s.sent == "" && s.log == Some("x")
  {
    hide Reachable;
    ReachVain();
    ReachWritten(INITIAL.(reader := Check));
    var s := INITIAL.(reader := Check, writer := Recorded, log := Some("x"), status := Success, own := true);
    var a := s.(reader := LastDrain, seen := true, fileOpen := false);
    Reach(s, Look(false), a);
    Reach(a, AtEnd, a.(reader := Gone));
  }

  /** A cancellation's status is read while the goroutine is still writing: the tail of the log is lost. */
  lemma LostWhenCanceled()
    ensures exists s :: Reachable(s) && s.reader == Gone && s.status == Canceled && s.pos.Some?
                        && s.sent == "" && s.log == Some("x")
  {
    hide Reachable;
    ReachCanceled();
    var s := INITIAL.(writer := Writing(true), log := Some(""), reader := LastDrain, pos := Some(0), done := true,
                      status := Canceled, own := false, fileOpen := true);
    var a := s.(reader := Gone);
    Reach(s, AtEnd, a);
    assert "" + "x" == "x";
    Reach(a, Write("x"), a.(log := Some("x")));
  }

  lemma ReachCanceled()
    ensures Reachable(INITIAL.(writer := Writing(true), log := Some(""), reader := LastDrain, pos := Some(0),
                               done := true, status := Canceled, own := false, fileOpen := true))
  {
    hide Reachable;
    ReachStart();
    var a := INITIAL.(writer := Writing(true), log := Some(""));
    Reach(INITIAL, CreateFile(true), a);
    Reach(a, First, a.(reader := Head));
    var b := a.(pos := Some(0));
    Reach(a.(reader := Head), Open, b.(reader := Drain));
    Reach(b.(reader := Drain), AtEnd, b.(reader := Check));
    var d := b.(reader := Check, done := true);
    Reach(b.(reader := Check), CancelFire, d);
    var e := d.(status := Canceled, own := false);
    Reach(d, CancelWrite, e);
    Reach(e, Look(false), e.(reader := LastDrain, fileOpen := true));
  }
}

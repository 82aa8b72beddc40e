/** Writing environment records and reading them back. */
module EnvRecords {
  import opened Text
  import opened EnvText
  import opened EnvDelta

  datatype Record = Line(key: string, value: string) | Block(key: string, delim: string, body: seq<string>)

  /** A line's key is non-empty and free of `=`, and nothing in the line looks like a block. A block's key is
      non-empty, has no `<<` and does not end in `<`; its delimiter is non-empty and no line of its body. */
  predicate Wf(r: Record) {
    match r
    case Line(k, v) =>
      k != "" && !Contains(k, "=") && NoNewline(k) && NoNewline(v) && !Contains(k + "=" + v, "<<")
    case Block(k, d, body) =>
      && k != "" && !Contains(k, "<<") && k[|k| - 1] != '<' && NoNewline(k)
      && d != "" && NoNewline(d) && d !in body && forall l | l in body :: NoNewline(l)
  }

  function RecordLines(r: Record): seq<string> {
    match r
    case Line(k, v) => [k + "=" + v]
    case Block(k, d, body) => [k + "<<" + d] + body + [d]
  }

  function Binding(r: Record): (string, string) {
    match r
    case Line(k, v) => (k, v)
    case Block(k, _, body) => (k, Unlines(body))
  }

  function AllLines(rs: seq<Record>): seq<string> {
    if rs == [] then [] else RecordLines(rs[0]) + AllLines(rs[1..])
  }

  function AllBindings(rs: seq<Record>): Bindings {
    if rs == [] then [] else [Binding(rs[0])] + AllBindings(rs[1..])
  }

  function WriteRecords(rs: seq<Record>): string {
    Unlines(AllLines(rs))
  }

  lemma LineEntry(k: string, v: string)
    requires Wf(Line(k, v))
    ensures BlockHead(k + "=" + v) == None && Simple(k + "=" + v) == [(k, v)]
  {
    var x := k + "=" + v;
    forall i: nat ensures !HasAt(x, i, "<<") {
      if HasAt(x, i, "<<") { assert Contains(x, "<<"); }
    }
    assert x[|k|..|k| + 1] == "=";
    forall i: nat | i < |k| ensures !HasAt(x, i, "=") {
      if HasAt(x, i, "=") {
        assert k[i..i + 1] == x[i..i + 1];
        assert HasAt(k, i, "=") && Contains(k, "=");
      }
    }
    IndexUnique(x, "=", |k|);
  }

  lemma BlockEntryHead(k: string, d: string)
    requires k != "" && !Contains(k, "<<") && k[|k| - 1] != '<' && d != ""
    ensures BlockHead(k + "<<" + d) == Some((k, d))
  {
    var x := k + "<<" + d;
    assert x[|k|..|k| + 2] == "<<";
    forall i: nat | i < |k| ensures !HasAt(x, i, "<<") {
      if HasAt(x, i, "<<") {
        assert x[i] == x[i..i + 2][0] == '<' && x[i] == k[i];
        assert i + 2 <= |k|;
        assert k[i..i + 2] == x[i..i + 2];
        assert HasAt(k, i, "<<") && Contains(k, "<<");
      }
    }
    IndexUnique(x, "<<", |k|);
  }

  /** The lines of one record are one entry, closed, with the record's binding. */
  lemma RecordBinds(r: Record)
    requires Wf(r)
    ensures Closed(RecordLines(r)) && Binds(RecordLines(r)) == [Binding(r)]
  {
    hide BlockHead, Simple, Unlines, BodyLen, Contains, NoNewline;
    var ls := RecordLines(r);
    match r
    case Line(k, v) =>
      LineEntry(k, v);
      assert EntryLen(ls) == 1 && ls[1..] == [];
      assert Binds(ls) == EntryBinds(ls) + [];
    case Block(k, d, body) =>
      BlockEntryHead(k, d);
      var n := |body|;
      assert ls[1..] == body + [d] && ls[1..][..n] == body && ls[1..][n] == d;
      BodyLenUnique(ls[1..], d, n);
      assert ls[1..1 + n] == body;
      assert EntryLen(ls) == |ls| && ls[|ls|..] == [];
      assert Binds(ls) == EntryBinds(ls) + [];
  }

  lemma {:induction false} RecordsBind(rs: seq<Record>)
    requires forall r | r in rs :: Wf(r)
    ensures Closed(AllLines(rs)) && Binds(AllLines(rs)) == AllBindings(rs)
    ensures forall l | l in AllLines(rs) :: NoNewline(l)
  {
    hide Wf, RecordLines, Binding, Binds, Closed, NoNewline;
    if rs == [] {
      NothingBinds();
    } else {
      assert rs[0] in rs;
      RecordBinds(rs[0]);
      RecordNoNewline(rs[0]);
      RecordsBind(rs[1..]);
      BindsConcat(RecordLines(rs[0]), AllLines(rs[1..]));
      ClosedConcat(RecordLines(rs[0]), AllLines(rs[1..]));
    }
  }

  lemma NothingBinds()
    ensures Closed([]) && Binds([]) == []
  {
  }

  lemma RecordNoNewline(r: Record)
    requires Wf(r)
    ensures forall l | l in RecordLines(r) :: NoNewline(l)
  {
  }

  /** Round trip: every list of records writes out as a complete text that parses back to the last-wins map. */
  lemma RecordsRoundTrip(rs: seq<Record>)
    requires forall r | r in rs :: Wf(r)
    ensures Complete(WriteRecords(rs)) && ParseEnv(WriteRecords(rs)) == ToMap(AllBindings(rs))
  {
    hide Wf, AllLines, AllBindings, Binds, ToMap, Closed, Unlines, Lines, NoNewline;
    var ls := AllLines(rs);
    RecordsBind(rs);
    LinesOfUnlines(ls, "");
    EmptyLineBinds();
    assert Unlines(ls) + "" == Unlines(ls);
    assert (ls + [""])[..|ls|] == ls;
    BindsConcat(ls, [""]);
    assert Binds(ls) + [] == Binds(ls);
  }
}

/** Reading an environment file piece by piece, and exactly when that gives what reading it whole gives. */
module EnvDelta {
  import opened Text
  import opened EnvText

  /** Empty, or whole lines with every block closed. */
  predicate Complete(data: string) {
    var ls := Lines(data);
    ls[|ls| - 1] == "" && Closed(ls[..|ls| - 1])
  }

  /** All lines but the last. */
  function Front(data: string): seq<string> {
    var ls := Lines(data);
    ls[..|ls| - 1]
  }

  function Last(data: string): (l: string)
    ensures NoNewline(l)
  {
    var ls := Lines(data);
    ls[|ls| - 1]
  }

  /** The lines of a text continue the last line of the text in front of it. */
  lemma LinesConcat(a: string, b: string)
    ensures Lines(a + b) == Front(a) + Lines(Last(a) + b)
  {
    UnlinesOfLines(a);
    assert a + b == Unlines(Front(a)) + (Last(a) + b);
    LinesOfUnlines(Front(a), Last(a) + b);
  }

  // ---- closed lines do not reach into what follows ----

  lemma EntryInFront(a: seq<string>, b: seq<string>)
    requires a != [] && (BlockHead(a[0]).Some? ==> BlockHead(a[0]).value.1 in a[1..])
    ensures EntryLen(a + b) == EntryLen(a) && EntryBinds(a + b) == EntryBinds(a)
  {
    hide BlockHead, Simple, Unlines;
    var head := BlockHead(a[0]);
    if head.Some? {
      var d := head.value.1;
      var n := BodyLen(a[1..], d);
      assert n < |a| - 1;
      assert (a + b)[1..] == a[1..] + b;
      assert (a[1..] + b)[..n] == a[1..][..n];
      BodyLenUnique(a[1..] + b, d, n);
      assert (a + b)[1..1 + n] == a[1..1 + n];
    }
  }

  lemma {:induction false} BindsConcat(a: seq<string>, b: seq<string>)
    requires Closed(a)
    ensures Binds(a + b) == Binds(a) + Binds(b)
    decreases |a|
  {
    hide EntryLen, EntryBinds, BlockHead;
    if a == [] {
      assert a + b == b;
    } else {
      var n := EntryLen(a);
      EntryInFront(a, b);
      BindsConcat(a[n..], b);
      calc {
        Binds(a + b);
        EntryBinds(a + b) + Binds((a + b)[n..]);
        { assert (a + b)[n..] == a[n..] + b; }
        EntryBinds(a) + (Binds(a[n..]) + Binds(b));
        Binds(a) + Binds(b);
      }
    }
  }

  lemma {:induction false} ClosedConcat(a: seq<string>, b: seq<string>)
    requires Closed(a)
    ensures Closed(a + b) <==> Closed(b)
    decreases |a|
  {
    hide EntryLen, EntryBinds, BlockHead;
    if a == [] {
      assert a + b == b;
    } else {
      var n := EntryLen(a);
      EntryInFront(a, b);
      assert (a + b)[n..] == a[n..] + b;
      ClosedConcat(a[n..], b);
      assert (a + b)[0] == a[0] && (a + b)[1..] == a[1..] + b;
    }
  }

  lemma EmptyLineBinds()
    ensures Binds([""]) == [] && Closed([""]) && Lines("") == [""]
  {
    assert [""][1..] == [] && EntryBinds([""]) == [] && EntryLen([""]) == 1;
  }

  /** Reading a complete piece first and the rest afterwards gives the same map as reading all at once. */
  lemma ParseSplit(a: string, b: string)
    requires Complete(a)
    ensures ParseEnv(a + b) == ParseEnv(a) + ParseEnv(b)
  {
    hide Lines, Binds, ToMap, Closed;
    LinesConcat(a, b);
    assert Last(a) + b == b;
    BindsConcat(Front(a), Lines(b));
    ToMapConcat(Binds(Front(a)), Binds(Lines(b)));
    assert Lines(a) == Front(a) + [""];
    BindsConcat(Front(a), [""]);
    EmptyLineBinds();
    assert Binds(Front(a)) + [] == Binds(Front(a));
  }

  lemma CompleteConcat(a: string, b: string)
    requires Complete(a) && Complete(b)
    ensures Complete(a + b)
  {
    hide Lines, Closed;
    LinesConcat(a, b);
    assert Last(a) + b == b;
    assert Lines(b) == Front(b) + [""];
    assert Lines(a + b) == (Front(a) + Front(b)) + [""];
    ClosedConcat(Front(a), Front(b));
  }

  // ---- and only complete pieces have that property ----

  /** A key longer than anything in a text of length `n`. */
  function LongKey(n: nat): (q: string)
    ensures |q| == n + 1 && AllQ(q)
  {
    seq(n + 1, _ => 'Q')
  }

  predicate AllQ(q: string) {
    forall i | 0 <= i < |q| :: q[i] == 'Q'
  }

  predicate HasKey(bs: Bindings, k: string) {
    exists i | 0 <= i < |bs| :: bs[i].0 == k
  }

  /** The last line of the probe: some short text, then the long key, then a value. */
  lemma ProbeLine(l: string, q: string)
    requires |l| < |q| && AllQ(q)
    ensures HasKey(EntryBinds([l + q + "=1"]), q) <==> l == ""
  {
    var x := l + q + "=1";
    if BlockHead(x).Some? {
      ProbeBlock(l, q);
    } else {
      ProbeSimple(l, q);
      assert EntryBinds([x]) == Simple(x);
    }
  }

  lemma ProbeBlock(l: string, q: string)
    requires AllQ(q) && BlockHead(l + q + "=1").Some?
    ensures |BlockHead(l + q + "=1").value.0| < |l|
  {
    var x := l + q + "=1";
    var i := Index(x, "<<").value;
    assert x[i + 1] == x[i..i + 2][1];
    assert forall k | |l| <= k < |l| + |q| :: x[k] == 'Q';
  }

  lemma ProbeSimple(l: string, q: string)
    requires |l| < |q| && AllQ(q)
    ensures HasKey(Simple(l + q + "=1"), q) <==> l == ""
  {
    var x := l + q + "=1";
    assert x[|l| + |q|..|l| + |q| + 1] == "=" && HasAt(x, |l| + |q|, "=");
    var i := Index(x, "=").value;
    assert x[i] == x[i..i + 1][0];
    assert forall k | |l| <= k < |l| + |q| :: x[k] == 'Q';
    assert i < |l| || i == |l| + |q|;
    if i == |l| + |q| {
      assert x[..i] == l + q;
      assert l == "" ==> l + q == q;
      assert Simple(x)[0].0 == l + q;
    }
  }

  /** The probe's key comes out only if all lines in front of it are closed and its line starts with it. */
  lemma {:induction false} ProbeBinds(front: seq<string>, l: string, q: string)
    requires |l| < |q| && AllQ(q) && forall s | s in front :: |s| < |q|
    ensures HasKey(Binds(front + [l + q + "=1"]), q) ==> l == "" && Closed(front)
    decreases |front|
  {
    hide BlockHead, Simple, Unlines, BodyLen;
    var x := l + q + "=1";
    var lines := front + [x];
    if front == [] {
      assert lines == [x];
      ProbeLine(l, q);
      assert EntryLen(lines) == 1 && lines[1..] == [];
      assert Binds(lines) == EntryBinds(lines);
    } else {
      var n := EntryLen(lines);
      assert lines[0] == front[0] && front[0] in front;
      ShortKeys(front, x, q);
      ProbeEntry(front, x);
      if n < |lines| {
        assert lines[n..] == front[n..] + [x];
        ProbeBinds(front[n..], l, q);
      } else {
        assert lines[n..] == [];
      }
      HasKeyConcat(EntryBinds(lines), Binds(lines[n..]), q);
    }
  }

  lemma HasKeyConcat(a: Bindings, b: Bindings, k: string)
    ensures HasKey(a + b, k) <==> HasKey(a, k) || HasKey(b, k)
  {
    if HasKey(a, k) {
      var i :| 0 <= i < |a| && a[i].0 == k;
      assert (a + b)[i].0 == k;
    }
    if HasKey(b, k) {
      var i :| 0 <= i < |b| && b[i].0 == k;
      assert (a + b)[|a| + i].0 == k;
    }
  }

  /** The first entry's key is part of its line, so a key longer than the line is not it. */
  lemma ShortKeys(front: seq<string>, x: string, q: string)
    requires front != [] && |front[0]| < |q|
    ensures !HasKey(EntryBinds(front + [x]), q)
  {
  }

  /** A line longer than all others is no delimiter of theirs: a first entry either ends in front of it or was open. */
  lemma ProbeEntry(front: seq<string>, x: string)
    requires front != [] && |x| > |front[0]|
    ensures var n := EntryLen(front + [x]);
            if n <= |front| then
              n == EntryLen(front) && (BlockHead(front[0]).Some? ==> BlockHead(front[0]).value.1 in front[1..])
            else n == |front| + 1
  {
    var head := BlockHead(front[0]);
    if head.Some? {
      var d := head.value.1;
      assert |d| < |x|;
      assert (front + [x])[1..] == front[1..] + [x];
      if d in front[1..] {
        EntryInFront(front, [x]);
      } else {
        assert d !in front[1..] + [x];
        BodyLenUnique(front[1..] + [x], d, |front|);
      }
    }
  }

  lemma {:induction false} LinesShort(s: string)
    ensures forall l | l in Lines(s) :: |l| <= |s|
  {
    if '\n' in s {
      LinesShort(s[FirstNewline(s) + 1..]);
    }
  }

  /** An incomplete piece is read wrongly in front of some continuation. */
  lemma IncompleteBreaks(a: string) returns (b: string)
    requires !Complete(a)
    ensures ParseEnv(a + b) != ParseEnv(a) + ParseEnv(b)
  {
    hide Lines, Binds, ToMap, Closed, EntryBinds, EntryLen;
    var q := LongKey(|a|);
    b := q + "=1";
    LinesConcat(a, b);
    var x := Last(a) + q + "=1";
    assert Last(a) + b == x;
    LinesOne(x);
    LinesOne(b);
    LinesShort(a);
    assert Last(a) in Lines(a) && forall s | s in Front(a) :: s in Lines(a);
    ProbeBinds(Front(a), Last(a), q);
    ProbeAlone(q);
    ToMapKeys(Binds(Front(a) + [x]), q);
    ToMapKeys(Binds([b]), q);
  }

  lemma LinesOne(s: string)
    requires NoNewline(s)
    ensures Lines(s) == [s]
  {
  }

  lemma ProbeAlone(q: string)
    requires q != "" && AllQ(q)
    ensures HasKey(Binds([q + "=1"]), q)
  {
    hide BlockHead, Simple;
    var x := q + "=1";
    ProbeLine("", q);
    assert "" + q + "=1" == x;
    assert Binds([x]) == EntryBinds([x]) + Binds([x][EntryLen([x])..]);
    HasKeyConcat(EntryBinds([x]), Binds([x][EntryLen([x])..]), q);
  }

  /** Reading a piece on its own is right, whatever is appended later, exactly for complete pieces. */
  lemma IncrementalIffComplete(a: string)
    ensures (forall b :: ParseEnv(a + b) == ParseEnv(a) + ParseEnv(b)) <==> Complete(a)
  {
    hide ParseEnv, Complete;
    if Complete(a) {
      forall b ensures ParseEnv(a + b) == ParseEnv(a) + ParseEnv(b) { ParseSplit(a, b); }
    } else {
      var b := IncompleteBreaks(a);
    }
  }

  /** For the path file whole lines are enough, and needed. */
  lemma PathsIffWholeLines(a: string)
    ensures (forall b :: ParsePath(a + b) == ParsePath(a) + ParsePath(b)) <==> Last(a) == ""
  {
    hide Lines, NonEmpty;
    assert Lines(a) == Front(a) + [Last(a)];
    NonEmptyConcat(Front(a), [Last(a)]);
    if Last(a) == "" {
      forall b ensures ParsePath(a + b) == ParsePath(a) + ParsePath(b) {
        LinesConcat(a, b);
        assert Last(a) + b == b;
        NonEmptyConcat(Front(a), Lines(b));
        NonEmptyOne("");
      }
    } else {
      LinesConcat(a, "x");
      LinesOne(Last(a) + "x");
      LinesOne("x");
      NonEmptyConcat(Front(a), [Last(a) + "x"]);
      NonEmptyOne(Last(a));
      NonEmptyOne(Last(a) + "x");
      NonEmptyOne("x");
      assert ParsePath(a + "x") != ParsePath(a) + ParsePath("x");
    }
  }

  lemma NonEmptyOne(l: string)
    ensures NonEmpty([l]) == if l == "" then [] else [l]
  {
    assert [l][1..] == [];
  }
}

/** Text with `${{ expression }}` in it: how it is cut at the leftmost, shortest, single-line matches, and what
    replaces them. */
module Interpolation {
  import opened Text
  import opened Values
  import opened Context
  import opened Evaluator

  const OPEN := "${{"
  const CLOSE := "}}"

  /** A text cut into literal parts and expressions. */
  datatype Template = End(lit: string) | Hole(lit: string, inner: string, rest: Template)

  /** The text a template was cut from. */
  function Source(t: Template): string {
    match t
    case End(lit) => lit
    case Hole(lit, inner, rest) => lit + OPEN + inner + CLOSE + Source(rest)
  }

  /** Every close at or after `j` has a newline in front of it. */
  ghost predicate NoCloseOnLine(s: string, j: nat) {
    forall k: nat | j <= k && HasAt(s, k, CLOSE) :: exists n: nat | j <= n < k :: s[n] == '\n'
  }

  /** The nearest close at or after `j` with no newline on the way. */
  function FindClose(s: string, j: nat): (r: Option<nat>)
    ensures r.Some? ==> j <= r.value && r.value + 2 <= |s| && HasAt(s, r.value, CLOSE)
    decreases |s| - j
  {
    if j >= |s| then None
    else if HasAt(s, j, CLOSE) then Some(j)
    else if s[j] == '\n' then None
    else FindClose(s, j + 1)
  }

  /** The leftmost open at or after `i` that has a close, and that close. */
  function FindMatch(s: string, i: nat): (r: Option<(nat, nat)>)
    ensures r.Some? ==>
              var (m, k) := r.value;
              i <= m && m + 3 <= k && k + 2 <= |s| && HasAt(s, m, OPEN) && FindClose(s, m + 3) == Some(k)
    decreases |s| - i
  {
    if i >= |s| then None
    else if HasAt(s, i, OPEN) && FindClose(s, i + 3).Some? then Some((i, FindClose(s, i + 3).value))
    else FindMatch(s, i + 1)
  }

  lemma Rejoin(s: string, m: nat, k: nat)
    requires m + 3 <= k && k + 2 <= |s|
    ensures s == s[..m] + s[m..m + 3] + s[m + 3..k] + s[k..k + 2] + s[k + 2..]
  {
    assert s[..m] + s[m..m + 3] == s[..m + 3];
    assert s[..m + 3] + s[m + 3..k] == s[..k];
    assert s[..k] + s[k..k + 2] == s[..k + 2];
  }

  /** Cutting loses nothing: the parts spell the text. */
  function Cut(s: string): (t: Template)
    ensures Source(t) == s
    decreases |s|
  {
    match FindMatch(s, 0)
    case None => End(s)
    case Some((m, k)) =>
      var t := Hole(s[..m], s[m + 3..k], Cut(s[k + 2..]));
      Rejoin(s, m, k);
      t
  }

  function Substitute(pr: Prims, c: EvalContext, inner: string): string {
    match EvalText(pr, c, TrimSpace(inner))
    case Some(v) => ValueToString(pr, v)
    case None => ""
  }

  function Expand(pr: Prims, c: EvalContext, t: Template): string {
    match t
    case End(lit) => lit
    case Hole(lit, inner, rest) => lit + Substitute(pr, c, inner) + Expand(pr, c, rest)
  }

  function Interpolate(pr: Prims, c: EvalContext, s: string): string {
    Expand(pr, c, Cut(s))
  }

  /** No open in the literal has a close on its line. */
  ghost predicate Inert(lit: string) {
    forall x: nat | HasAt(lit, x, OPEN) :: NoCloseOnLine(lit, x + 3)
  }

  /** Each open in the literal has its line end inside the literal, so it cannot reach a close behind it. */
  ghost predicate Fenced(lit: string) {
    forall x: nat | HasAt(lit, x, OPEN) :: exists n: nat | x + 3 <= n < |lit| :: lit[n] == '\n'
  }

  /** A single-line expression that ends at its nearest close. */
  ghost predicate Tight(inner: string) {
    NoNewline(inner) && forall x: nat | x < |inner| :: !HasAt(inner + CLOSE, x, CLOSE)
  }

  ghost predicate Canonical(t: Template) {
    match t
    case End(lit) => Inert(lit)
    case Hole(lit, inner, rest) => Inert(lit) && Fenced(lit) && Tight(inner) && Canonical(rest)
  }

  // ---- a canonical template is recovered from its text ----

  lemma {:induction false} FindCloseAt(s: string, j: nat, k: nat)
    requires j <= k && HasAt(s, k, CLOSE)
    requires forall m: nat | j <= m < k :: !HasAt(s, m, CLOSE) && s[m] != '\n'
    ensures FindClose(s, j) == Some(k)
    decreases k - j
  {
    if j < k {
      FindCloseAt(s, j + 1, k);
    }
  }

  /** What is found is the nearest close, on the same line; if none is found there is none. */
  lemma {:induction false} FindCloseNearest(s: string, j: nat)
    ensures var r := FindClose(s, j);
            && (r.Some? ==> forall m: nat | j <= m < r.value :: !HasAt(s, m, CLOSE) && s[m] != '\n')
            && (r.None? <==> NoCloseOnLine(s, j))
    decreases |s| - j
  {
    if j < |s| && !HasAt(s, j, CLOSE) && s[j] != '\n' {
      FindCloseNearest(s, j + 1);
      LineFromNext(s, j);
    }
  }

  lemma LineFromNext(s: string, j: nat)
    requires j < |s| && !HasAt(s, j, CLOSE) && s[j] != '\n'
    ensures NoCloseOnLine(s, j) <==> NoCloseOnLine(s, j + 1)
  {
    if NoCloseOnLine(s, j) {
      forall k: nat | j + 1 <= k && HasAt(s, k, CLOSE) ensures exists n: nat | j + 1 <= n < k :: s[n] == '\n' {
        var n: nat :| j <= n < k && s[n] == '\n';
        assert j + 1 <= n;
      }
    }
    if NoCloseOnLine(s, j + 1) {
      forall k: nat | j <= k && HasAt(s, k, CLOSE) ensures exists n: nat | j <= n < k :: s[n] == '\n' {
        var n: nat :| j + 1 <= n < k && s[n] == '\n';
        assert j <= n;
      }
    }
  }

  lemma {:induction false} FindMatchAt(s: string, i: nat, m: nat, k: nat)
    requires i <= m && HasAt(s, m, OPEN) && FindClose(s, m + 3) == Some(k)
    requires forall x: nat | i <= x < m && HasAt(s, x, OPEN) :: FindClose(s, x + 3).None?
    ensures FindMatch(s, i) == Some((m, k))
    decreases m - i
  {
    if i < m {
      FindMatchAt(s, i + 1, m, k);
    }
  }

  /** Opens in front of the match, or all if there is none, have no close on their line. */
  lemma {:induction false} FindMatchPassed(s: string, i: nat)
    ensures var r := FindMatch(s, i);
            var m := if r.Some? then r.value.0 else |s|;
            forall x: nat | i <= x < m && HasAt(s, x, OPEN) :: NoCloseOnLine(s, x + 3)
    decreases |s| - i
  {
    hide NoCloseOnLine, FindClose;
    if i < |s| {
      FindCloseNearest(s, i + 3);
      if !HasAt(s, i, OPEN) || FindClose(s, i + 3).None? {
        FindMatchPassed(s, i + 1);
      }
    }
  }

  lemma {:induction false} FindMatchNone(s: string, i: nat)
    requires forall x: nat | i <= x && HasAt(s, x, OPEN) :: FindClose(s, x + 3).None?
    ensures FindMatch(s, i) == None
    decreases |s| - i
  {
    if i < |s| {
      FindMatchNone(s, i + 1);
    }
  }

  /** In front of an open, an open or a close lies inside the literal or not at all: neither crosses the border. */
  lemma InLiteral(lit: string, more: string, x: nat, pat: string)
    requires x < |lit| && (pat == OPEN || pat == CLOSE)
    ensures HasAt(lit + OPEN + more, x, pat) <==> HasAt(lit, x, pat)
  {
    var s := lit + OPEN + more;
    assert s[|lit|] == '$';
    if x + |pat| <= |lit| {
      assert s[x..x + |pat|] == lit[x..x + |pat|];
    } else {
      assert |lit| - x < |pat| && pat[|lit| - x] != '$';
      assert x + |pat| <= |s| ==> s[x..x + |pat|][|lit| - x] == '$';
    }
  }

  /** An open in a literal that is inert and fenced finds no close in the text that goes on behind it. */
  lemma OpenIsDead(lit: string, more: string, x: nat)
    requires Inert(lit) && Fenced(lit) && HasAt(lit, x, OPEN)
    ensures FindClose(lit + OPEN + more, x + 3).None?
  {
    var s := lit + OPEN + more;
    var e: nat :| x + 3 <= e < |lit| && lit[e] == '\n';
    assert s[e] == '\n';
    forall k: nat | x + 3 <= k && HasAt(s, k, CLOSE) ensures exists n: nat | x + 3 <= n < k :: s[n] == '\n' {
      if k <= e {
        InLiteral(lit, more, k, CLOSE);
        var n: nat :| x + 3 <= n < k && lit[n] == '\n';
        assert s[n] == '\n';
      }
    }
    FindCloseNearest(s, x + 3);
  }

  lemma HoleCloses(pre: string, inner: string, more: string)
    requires Tight(inner)
    ensures FindClose(pre + inner + CLOSE + more, |pre|) == Some(|pre| + |inner|)
  {
    var s, k := pre + inner + CLOSE + more, |pre| + |inner|;
    assert s[k..k + 2] == CLOSE;
    forall m: nat | |pre| <= m < k ensures !HasAt(s, m, CLOSE) && s[m] != '\n' {
      var x := m - |pre|;
      assert s[m] == inner[x] && s[m..m + 2] == (inner + CLOSE)[x..x + 2];
      assert !HasAt(inner + CLOSE, x, CLOSE);
    }
    FindCloseAt(s, |pre|, k);
  }

  lemma FirstMatch(lit: string, inner: string, more: string)
    requires Inert(lit) && Fenced(lit) && Tight(inner)
    ensures FindMatch(lit + OPEN + inner + CLOSE + more, 0) == Some((|lit|, |lit| + 3 + |inner|))
  {
    hide Inert, Fenced, Tight, FindClose, FindMatch;
    var s := lit + OPEN + inner + CLOSE + more;
    var tail := inner + CLOSE + more;
    assert s == lit + OPEN + tail;
    assert s[|lit|..|lit| + 3] == OPEN;
    forall x: nat | 0 <= x < |lit| && HasAt(s, x, OPEN) ensures FindClose(s, x + 3).None? {
      InLiteral(lit, tail, x, OPEN);
      OpenIsDead(lit, tail, x);
    }
    HoleCloses(lit + OPEN, inner, more);
    FindMatchAt(s, 0, |lit|, |lit| + 3 + |inner|);
  }

  lemma NoMatch(lit: string)
    requires Inert(lit)
    ensures FindMatch(lit, 0) == None
  {
    forall x: nat | HasAt(lit, x, OPEN) ensures FindClose(lit, x + 3).None? {
      FindCloseNearest(lit, x + 3);
    }
    FindMatchNone(lit, 0);
  }

  lemma {:induction false} CutSource(t: Template)
    requires Canonical(t)
    ensures Cut(Source(t)) == t
  {
    hide FindMatch, Inert, Fenced, Tight, Cut;
    match t
    case End(lit) =>
      NoMatch(lit);
      CutPlain(lit);
    case Hole(lit, inner, rest) =>
      CutSource(rest);
      FirstMatch(lit, inner, Source(rest));
      CutHole(lit, inner, Source(rest));
  }

  lemma CutPlain(lit: string)
    requires FindMatch(lit, 0) == None
    ensures Cut(lit) == End(lit)
  {
    hide FindMatch;
  }

  lemma CutHole(lit: string, inner: string, more: string)
    requires FindMatch(lit + OPEN + inner + CLOSE + more, 0) == Some((|lit|, |lit| + 3 + |inner|))
    ensures Cut(lit + OPEN + inner + CLOSE + more) == Hole(lit, inner, Cut(more))
  {
    hide FindMatch;
    var s := lit + OPEN + inner + CLOSE + more;
    var m, k := |lit|, |lit| + 3 + |inner|;
    assert s[..m] == lit && s[m + 3..k] == inner && s[k + 2..] == more;
  }

  // ---- and every text is cut into a canonical template ----

  lemma LiteralInert(s: string, m: nat)
    requires m <= |s| && forall x: nat | x < m && HasAt(s, x, OPEN) :: NoCloseOnLine(s, x + 3)
    ensures Inert(s[..m])
  {
    var lit := s[..m];
    forall x: nat | HasAt(lit, x, OPEN) ensures NoCloseOnLine(lit, x + 3) {
      assert s[x..x + 3] == lit[x..x + 3];
      forall k: nat | x + 3 <= k && HasAt(lit, k, CLOSE) ensures exists n: nat | x + 3 <= n < k :: lit[n] == '\n' {
        assert s[k..k + 2] == lit[k..k + 2] && HasAt(s, k, CLOSE) && HasAt(s, x, OPEN) && NoCloseOnLine(s, x + 3);
        var n: nat :| x + 3 <= n < k && s[n] == '\n';
        assert lit[n] == '\n';
      }
    }
  }

  /** An earlier open that was passed over must have its line end in front of the match. */
  lemma LiteralFenced(s: string, m: nat, k: nat)
    requires m + 3 <= k && HasAt(s, m, OPEN) && FindClose(s, m + 3) == Some(k)
    requires forall x: nat | x < m && HasAt(s, x, OPEN) :: NoCloseOnLine(s, x + 3)
    ensures Fenced(s[..m])
  {
    FindCloseNearest(s, m + 3);
    hide FindClose, NoCloseOnLine;
    forall x: nat | HasAt(s[..m], x, OPEN) ensures exists n: nat | x + 3 <= n < m :: s[..m][n] == '\n' {
      OpenInPrefix(s, m, x);
      var n := LineEnd(s, x + 3, m, k);
      assert s[..m][n] == '\n';
    }
  }

  lemma OpenInPrefix(s: string, m: nat, x: nat)
    requires m <= |s| && HasAt(s[..m], x, OPEN)
    ensures HasAt(s, x, OPEN) && x + 3 <= m
  {
    assert s[..m][x..x + 3] == s[x..x + 3];
  }

  lemma LineEnd(s: string, j: nat, m: nat, k: nat) returns (n: nat)
    requires j <= m < k && HasAt(s, m, OPEN) && HasAt(s, k, CLOSE) && NoCloseOnLine(s, j)
    requires forall x: nat | m + 3 <= x < k :: s[x] != '\n'
    ensures j <= n < m && s[n] == '\n'
  {
    n :| j <= n < k && s[n] == '\n';
    assert s[m..m + 3] == OPEN;
    assert s[m] == OPEN[0] && s[m + 1] == OPEN[1] && s[m + 2] == OPEN[2];
  }

  lemma InnerTight(s: string, j: nat, k: nat)
    requires FindClose(s, j) == Some(k)
    ensures Tight(s[j..k])
  {
    FindCloseNearest(s, j);
    hide FindClose;
    var inner := s[j..k];
    forall x: nat | x < |inner| ensures !HasAt(inner + CLOSE, x, CLOSE) && inner[x] != '\n' {
      assert s[k..k + 2] == CLOSE && inner + CLOSE == s[j..k + 2];
      assert s[j..k + 2][x..x + 2] == s[j + x..j + x + 2];
      assert !HasAt(s, j + x, CLOSE) && inner[x] == s[j + x];
    }
  }

  lemma {:induction false} CutCanonical(s: string)
    ensures Canonical(Cut(s))
    decreases |s|
  {
    hide Inert, Fenced, Tight, FindClose, NoCloseOnLine;
    var r := FindMatch(s, 0);
    FindMatchPassed(s, 0);
    if r.None? {
      assert s[..|s|] == s;
      LiteralInert(s, |s|);
    } else {
      var (m, k) := r.value;
      LiteralInert(s, m);
      LiteralFenced(s, m, k);
      InnerTight(s, m + 3, k);
      CutCanonical(s[k + 2..]);
    }
  }

  /** Cutting, for every text: it yields the one canonical template that spells the text. Unmatched opens stay in
      literals, and an expression ends at its nearest close. */
  lemma CutIffCanonical(s: string, t: Template)
    ensures Cut(s) == t <==> Source(t) == s && Canonical(t)
  {
    hide Canonical, Source, Cut;
    CutCanonical(s);
    if Source(t) == s && Canonical(t) {
      CutSource(t);
    }
  }

  /** Text without an expression stays as it is. */
  lemma InertStays(pr: Prims, c: EvalContext, lit: string)
    requires Inert(lit)
    ensures Interpolate(pr, c, lit) == lit
  {
    hide Inert;
    CutSource(End(lit));
  }

  /** The first expression is replaced where it stands, and what follows it is interpolated on its own. */
  lemma HoleSplits(pr: Prims, c: EvalContext, lit: string, inner: string, s: string)
    requires Inert(lit) && Fenced(lit) && Tight(inner)
    ensures Interpolate(pr, c, lit + "${{" + inner + "}}" + s) ==
            lit + Substitute(pr, c, inner) + Interpolate(pr, c, s)
  {
    hide Inert, Fenced, Tight, Cut, Substitute;
    CutIffCanonical(s, Cut(s));
    CutSource(Hole(lit, inner, Cut(s)));
  }

  /** What stands for an expression, with white space around it, is its value as text, or nothing if it errs. */
  lemma HoleReplaced(pr: Prims, c: EvalContext, lit: string, a: string, e: string, b: string, s: string, w: string)
    requires Inert(lit) && Fenced(lit) && Tight(a + e + b)
    requires Blank(a) && Blank(b) && e != "" && !IsSpace(e[0]) && !IsSpace(e[|e| - 1])
    requires match EvalText(pr, c, e) case Some(v) => Shows(pr, v, w) case None => w == ""
    ensures Interpolate(pr, c, lit + "${{" + (a + e + b) + "}}" + s) == lit + w + Interpolate(pr, c, s)
  {
    HoleSplits(pr, c, lit, a + e + b, s);
    hide Inert, Fenced, Tight, Interpolate, EvalText, Blank, IsSpace, Shows;
    TrimPadded(a, e, b);
    if EvalText(pr, c, e).Some? {
      ShownOnce(pr, EvalText(pr, c, e).value, w);
    }
  }

  /** Nothing stands for an expression that is all white space. */
  lemma BlankHole(pr: Prims, c: EvalContext, lit: string, a: string, s: string)
    requires Inert(lit) && Fenced(lit) && Tight(a) && Blank(a)
    ensures Interpolate(pr, c, lit + "${{" + a + "}}" + s) == lit + Interpolate(pr, c, s)
  {
    HoleSplits(pr, c, lit, a, s);
    TrimBlank(a);
    EmptyErrs(pr, c);
    assert lit + "" == lit;
  }

  /** Plain templates: literals without an open, and single-line expressions without a close that do not end in `}`. */
  predicate Proper(t: Template) {
    match t
    case End(lit) => !Contains(lit, OPEN)
    case Hole(lit, inner, rest) =>
      && !Contains(lit, OPEN)
      && !Contains(inner, CLOSE) && NoNewline(inner) && (inner != "" ==> inner[|inner| - 1] != '}')
      && Proper(rest)
  }

  lemma PlainLiteral(lit: string)
    requires !Contains(lit, OPEN)
    ensures Inert(lit) && Fenced(lit)
  {
    forall x: nat ensures !HasAt(lit, x, OPEN) {
      assert x <= |lit| ==> !HasAt(lit, x, OPEN);
    }
  }

  lemma PlainInner(inner: string)
    requires !Contains(inner, CLOSE) && NoNewline(inner) && (inner != "" ==> inner[|inner| - 1] != '}')
    ensures Tight(inner)
  {
    var s := inner + CLOSE;
    forall x: nat | x < |inner| ensures !HasAt(s, x, CLOSE) {
      if x + 2 <= |inner| {
        assert s[x..x + 2] == inner[x..x + 2];
        assert !HasAt(inner, x, CLOSE);
      } else {
        assert s[x..x + 2][0] == inner[x];
      }
    }
  }

  /** Plain templates are canonical. */
  lemma {:induction false} ProperIsCanonical(t: Template)
    requires Proper(t)
    ensures Canonical(t)
  {
    hide Inert, Fenced, Tight, Contains;
    PlainLiteral(t.lit);
    if t.Hole? {
      PlainInner(t.inner);
      ProperIsCanonical(t.rest);
    }
  }
}

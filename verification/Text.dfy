/** Strings the way the runner uses them: substring search, line splitting, trimming and decimal numerals. */
module Text {

  datatype Option<+T> = None | Some(value: T)

  /** `pat` occurs in `s` at index `i`. */
  predicate HasAt(s: string, i: nat, pat: string) {
    i + |pat| <= |s| && s[i..i + |pat|] == pat
  }

  predicate Contains(s: string, pat: string) {
    exists i: nat | i <= |s| :: HasAt(s, i, pat)
  }

  lemma ContainsSplits(s: string, pat: string)
    ensures Contains(s, pat) <==> exists u: string, v: string :: s == u + pat + v
  {
    if i: nat :| i <= |s| && HasAt(s, i, pat) {
      assert s == s[..i] + pat + s[i + |pat|..];
    }
    if u: string, v: string :| s == u + pat + v {
      assert HasAt(s, |u|, pat);
    }
  }

  predicate HasPrefix(s: string, pat: string) {
    HasAt(s, 0, pat)
  }

  predicate HasSuffix(s: string, pat: string) {
    |pat| <= |s| && HasAt(s, |s| - |pat|, pat)
  }

  /** The leftmost occurrence of `pat` at or after `i`. */
  function IndexFrom(s: string, pat: string, i: nat): (r: Option<nat>)
    ensures r.Some? ==> i <= r.value && HasAt(s, r.value, pat)
    ensures r.Some? ==> forall k: nat | i <= k < r.value :: !HasAt(s, k, pat)
    ensures r.None? ==> forall k: nat | i <= k :: !HasAt(s, k, pat)
    decreases |s| + 1 - i
  {
    if i > |s| then None
    else if HasAt(s, i, pat) then Some(i)
    else IndexFrom(s, pat, i + 1)
  }

  function Index(s: string, pat: string): Option<nat> {
    IndexFrom(s, pat, 0)
  }

  /** The leftmost occurrence is determined by being an occurrence with none before it. */
  lemma IndexUnique(s: string, pat: string, i: nat)
    requires HasAt(s, i, pat)
    requires forall k: nat | k < i :: !HasAt(s, k, pat)
    ensures Index(s, pat) == Some(i)
  {
  }

  predicate NoNewline(s: string) {
    '\n' !in s
  }

  /** `s` cut at every newline; always at least one piece, the last one possibly empty. */
  function Lines(s: string): (r: seq<string>)
    ensures |r| >= 1
    ensures forall l | l in r :: NoNewline(l)
  {
    if '\n' !in s then [s]
    else
      var i := FirstNewline(s);
      [s[..i]] + Lines(s[i + 1..])
  }

  function FirstNewline(s: string): (i: nat)
    requires '\n' in s
    ensures i < |s| && s[i] == '\n' && NoNewline(s[..i])
  {
    if s[0] == '\n' then 0 else 1 + FirstNewline(s[1..])
  }

  /** Each line followed by a newline. */
  function Unlines(ls: seq<string>): string {
    if ls == [] then "" else ls[0] + "\n" + Unlines(ls[1..])
  }

  lemma {:induction false} LinesStep(l: string, rest: string)
    requires NoNewline(l)
    ensures Lines(l + "\n" + rest) == [l] + Lines(rest)
  {
    var s := l + "\n" + rest;
    assert s[|l|] == '\n';
    assert forall k | 0 <= k < |l| :: s[k] == l[k];
    var i := FirstNewline(s);
    assert forall k | 0 <= k < i :: s[..i][k] == s[k];
    assert i == |l|;
    assert s[..i] == l && s[i + 1..] == rest;
  }

  lemma NoLines()
    ensures Unlines([]) == ""
  {
  }

  lemma UnlinesFirst(ls: seq<string>, rest: string)
    requires ls != []
    ensures Unlines(ls) + rest == ls[0] + "\n" + (Unlines(ls[1..]) + rest)
  {
    Regroup(ls[0], "\n", Unlines(ls[1..]), rest);
  }

  lemma Regroup(a: string, b: string, c: string, d: string)
    ensures a + b + c + d == a + b + (c + d)
  {
  }

  /** Splitting undoes joining: complete lines in front of any text come back one by one. */
  lemma {:induction false} LinesOfUnlines(ls: seq<string>, rest: string)
    requires forall l | l in ls :: NoNewline(l)
    ensures Lines(Unlines(ls) + rest) == ls + Lines(rest)
  {
    hide Lines, Unlines;
    if ls == [] {
      assert Unlines(ls) + rest == rest by { NoLines(); }
    } else {
      var l, ls' := ls[0], ls[1..];
      UnlinesFirst(ls, rest);
      LinesStep(l, Unlines(ls') + rest) by { assert l in ls; }
      LinesOfUnlines(ls', rest);
      assert ls == [l] + ls';
    }
  }

  /** The lines, all but the last one terminated. */
  function Joined(ls: seq<string>): string
    requires ls != []
  {
    Unlines(ls[..|ls| - 1]) + ls[|ls| - 1]
  }

  lemma JoinedCons(l: string, ls: seq<string>)
    requires ls != []
    ensures Joined([l] + ls) == l + "\n" + Joined(ls)
  {
    var all := [l] + ls;
    var front := all[..|ls|];
    assert front[0] == l && front[1..] == ls[..|ls| - 1];
    assert all[|ls|] == ls[|ls| - 1];
  }

  /** Joining undoes splitting: the lines of a text spell the text again. */
  lemma {:induction false} UnlinesOfLines(s: string)
    ensures Joined(Lines(s)) == s
  {
    if '\n' in s {
      var i := FirstNewline(s);
      UnlinesOfLines(s[i + 1..]);
      assert s == s[..i] + "\n" + s[i + 1..];
      JoinedCons(s[..i], Lines(s[i + 1..]));
    }
  }

  /** Unicode white space, as trimmed from both ends of an expression. */
  predicate IsSpace(c: char) {
    c in {' ', '\t', '\n', '\r', '\U{0B}', '\U{0C}', '\U{85}', '\U{A0}', '\U{1680}',
          '\U{2028}', '\U{2029}', '\U{202F}', '\U{205F}', '\U{3000}'}
    || '\U{2000}' <= c <= '\U{200A}'
  }

  /** In ASCII, the white space is the blank, the tab and the line and page breaks. */
  lemma AsciiSpaces(c: char)
    requires c < '\U{80}'
    ensures IsSpace(c) <==> c in " \t\n\r\U{0B}\U{0C}"
  {
  }

  function TrimSpace(s: string): (r: string)
    ensures r != "" ==> !IsSpace(r[0]) && !IsSpace(r[|r| - 1])
    decreases |s|
  {
    if s == "" then s
    else if IsSpace(s[0]) then TrimSpace(s[1..])
    else if IsSpace(s[|s| - 1]) then TrimSpace(s[..|s| - 1])
    else s
  }

  predicate Blank(s: string) {
    forall c | c in s :: IsSpace(c)
  }

  /** White space around a text that has none at its ends is exactly what trimming removes. */
  lemma {:induction false} TrimPadded(a: string, s: string, b: string)
    requires Blank(a) && Blank(b)
    requires s != "" && !IsSpace(s[0]) && !IsSpace(s[|s| - 1])
    ensures TrimSpace(a + s + b) == s
    decreases |a| + |b|
  {
    var t := a + s + b;
    if a != "" {
      assert t[1..] == a[1..] + s + b;
      TrimPadded(a[1..], s, b);
    } else if b != "" {
      assert t[..|t| - 1] == a + s + b[..|b| - 1];
      TrimPadded(a, s, b[..|b| - 1]);
    } else {
      assert a + s == s && s + b == s;
    }
  }

  lemma {:induction false} TrimBlank(s: string)
    requires Blank(s)
    ensures TrimSpace(s) == ""
  {
    if s != "" { TrimBlank(s[1..]); }
  }

  /** Decimal numeral of an integer. */
  function Itoa(n: int): string
    decreases n < 0, if n < 0 then -n else n
  {
    if n < 0 then "-" + Itoa(-n)
    else if n < 10 then [Digit(n)]
    else Itoa(n / 10) + [Digit(n % 10)]
  }

  function Digit(n: int): char
    requires 0 <= n < 10
  {
    "0123456789"[n]
  }

  /** Decimal integer with an optional sign, as `strconv.Atoi` accepts it. */
  function Atoi(s: string): Option<int> {
    if s != "" && s[0] == '-' then
      (match AtoiDigits(s[1..]) case Some(n) => Some(-n) case None => None)
    else if s != "" && s[0] == '+' then AtoiDigits(s[1..])
    else AtoiDigits(s)
  }

  function AtoiDigits(s: string): Option<int> {
    if s == "" || s[|s| - 1] !in "0123456789" then None
    else
      var d := s[|s| - 1] as int - '0' as int;
      if |s| == 1 then Some(d)
      else match AtoiDigits(s[..|s| - 1]) case Some(n) => Some(10 * n + d) case None => None
  }

  lemma DigitValue(n: int)
    requires 0 <= n < 10
    ensures Digit(n) in "0123456789" && Digit(n) as int - '0' as int == n
  {
    assert n == 0 || n == 1 || n == 2 || n == 3 || n == 4 || n == 5 || n == 6 || n == 7 || n == 8 || n == 9;
  }

  lemma {:induction false} ItoaDigits(n: nat)
    ensures Itoa(n) != "" && AtoiDigits(Itoa(n)) == Some(n) && forall c | c in Itoa(n) :: '0' <= c <= '9'
    decreases n
  {
    if n < 10 {
      DigitValue(n);
    } else {
      ItoaDigits(n / 10);
      DigitValue(n % 10);
      var s := Itoa(n / 10) + [Digit(n % 10)];
      assert s[..|s| - 1] == Itoa(n / 10);
    }
  }

  /** No zeros in front. */
  lemma {:induction false} ItoaPlain(n: nat)
    ensures Itoa(0) == "0" && Itoa(n) != "" && (n > 0 ==> Itoa(n)[0] != '0')
    decreases n
  {
    if n >= 10 {
      ItoaPlain(n / 10);
      assert Itoa(n)[0] == Itoa(n / 10)[0];
    }
  }

  /** Numerals read back as the integers they were written for, so different integers have different numerals. */
  lemma AtoiOfItoa(n: int)
    ensures Atoi(Itoa(n)) == Some(n)
  {
    hide AtoiDigits;
    if n < 0 {
      ItoaDigits(-n);
      assert Itoa(n)[1..] == Itoa(-n);
    } else {
      ItoaDigits(n);
      assert Itoa(n)[0] in Itoa(n);
    }
  }

  /** Every occurrence of `pat`, left to right and without overlap, replaced by `repl`; `pat` is never empty here. */
  function ReplaceAll(s: string, pat: string, repl: string): string
    requires pat != ""
    decreases |s|
  {
    if s == "" then ""
    else if HasPrefix(s, pat) then repl + ReplaceAll(s[|pat|..], pat, repl)
    else [s[0]] + ReplaceAll(s[1..], pat, repl)
  }

  /** Three-way lexicographic comparison. */
  function Compare(a: string, b: string): int {
    if a == "" && b == "" then 0
    else if a == "" then -1
    else if b == "" then 1
    else if a[0] < b[0] then -1
    else if a[0] > b[0] then 1
    else Compare(a[1..], b[1..])
  }

  /** Lexicographic order: `a` is a proper prefix of `b`, or smaller at the first place where they differ. */
  ghost predicate Precedes(a: string, b: string) {
    exists k: nat | k <= |a| && k < |b| :: a[..k] == b[..k] && (k == |a| || a[k] < b[k])
  }

  lemma PrecedesCons(a: string, b: string)
    requires a != "" && b != "" && a[0] == b[0]
    ensures Precedes(a, b) <==> Precedes(a[1..], b[1..])
  {
    var c, d := a[1..], b[1..];
    if Precedes(a, b) {
      var k: nat :| k <= |a| && k < |b| && a[..k] == b[..k] && (k == |a| || a[k] < b[k]);
      assert c[..k - 1] == a[..k][1..] && d[..k - 1] == b[..k][1..];
    }
    if Precedes(c, d) {
      var k: nat :| k <= |c| && k < |d| && c[..k] == d[..k] && (k == |c| || c[k] < d[k]);
      assert a[..k + 1] == [a[0]] + c[..k] && b[..k + 1] == [b[0]] + d[..k];
    }
  }

  lemma PrecedesFirst(a: string, b: string)
    requires a == "" || b == "" || a[0] != b[0]
    ensures Precedes(a, b) <==> b != "" && (a == "" || a[0] < b[0])
  {
    if b != "" && (a == "" || a[0] < b[0]) {
      assert a[..0] == b[..0];
    }
    if Precedes(a, b) {
      var k: nat :| k <= |a| && k < |b| && a[..k] == b[..k] && (k == |a| || a[k] < b[k]);
      assert k == 0;
    }
  }

  /** The three-way comparison decides the lexicographic order. */
  lemma {:induction false} CompareOrders(a: string, b: string)
    ensures Compare(a, b) < 0 <==> Precedes(a, b)
    ensures Compare(a, b) > 0 <==> Precedes(b, a)
    ensures Compare(a, b) == 0 <==> a == b
  {
    hide Precedes;
    if a != "" && b != "" && a[0] == b[0] {
      CompareOrders(a[1..], b[1..]);
      PrecedesCons(a, b);
      PrecedesCons(b, a);
      assert a == [a[0]] + a[1..] && b == [b[0]] + b[1..];
    } else {
      PrecedesFirst(a, b);
      PrecedesFirst(b, a);
    }
  }

  function Join(parts: seq<string>, sep: string): string {
    if |parts| == 0 then ""
    else if |parts| == 1 then parts[0]
    else parts[0] + sep + Join(parts[1..], sep)
  }

  /** One separator between any two neighbours, and none at the ends. */
  lemma {:induction false} JoinConcat(a: seq<string>, b: seq<string>, sep: string)
    requires a != [] && b != []
    ensures Join(a + b, sep) == Join(a, sep) + sep + Join(b, sep)
  {
    if |a| == 1 {
      assert (a + b)[1..] == b;
    } else {
      assert (a + b)[1..] == a[1..] + b;
      JoinConcat(a[1..], b, sep);
    }
  }

  // ---- replacing ----

  /** Text that lacks the pattern's first character is passed over. */
  lemma {:induction false} ReplacePassed(s: string, rest: string, pat: string, repl: string)
    requires pat != "" && pat[0] !in s
    ensures ReplaceAll(s + rest, pat, repl) == s + ReplaceAll(rest, pat, repl)
  {
    if s == "" {
      assert s + rest == rest;
    } else {
      var t := s + rest;
      assert t[0] == s[0] && t[1..] == s[1..] + rest;
      assert !HasPrefix(t, pat);
      ReplacePassed(s[1..], rest, pat, repl);
    }
  }

  lemma ReplaceMiss(s: string, pat: string, repl: string)
    requires pat != "" && s != "" && !HasPrefix(s, pat)
    ensures ReplaceAll(s, pat, repl) == [s[0]] + ReplaceAll(s[1..], pat, repl)
  {
  }

  lemma ReplaceHit(rest: string, pat: string, repl: string)
    requires pat != ""
    ensures ReplaceAll(pat + rest, pat, repl) == repl + ReplaceAll(rest, pat, repl)
  {
    assert (pat + rest)[..|pat|] == pat && (pat + rest)[|pat|..] == rest;
  }
}

/** The tokenizer: a loop over the text, its specification token by token, and the round trip with a writer
    that may put any gaps between tokens, or none where the tokens cannot run together. */
module Lexer {
  import opened Text
  import opened Values

  datatype Token =
    | StrTok(s: string)
    | NumTok(s: string)
    | BoolTok(b: bool)
    | NullTok
    | Ident(s: string)
    | LParen | RParen | Comma | Dot | LBracket | RBracket
    | CmpTok(op: CmpOp)
    | AndTok | OrTok | NotTok
    | Eof

  predicate IsDigit(c: char) { '0' <= c <= '9' }
  predicate IsNumCont(c: char) { IsDigit(c) || c == '.' }
  predicate IsIdentStart(c: char) { 'a' <= c <= 'z' || 'A' <= c <= 'Z' || c == '_' }
  predicate IsIdentCont(c: char) { IsIdentStart(c) || IsDigit(c) || c == '-' }
  predicate IsNotQuote(c: char) { c != '\'' }

  /** Length of the longest prefix whose characters all satisfy `p`. */
  function Span(s: string, p: char -> bool): (n: nat)
    ensures n <= |s| && forall k | 0 <= k < n :: p(s[k])
    ensures n < |s| ==> !p(s[n])
  {
    if s == "" || !p(s[0]) then 0 else 1 + Span(s[1..], p)
  }

  lemma SpanUnique(s: string, p: char -> bool, n: nat)
    requires n <= |s| && forall k | 0 <= k < n :: p(s[k])
    requires n < |s| ==> !p(s[n])
    ensures Span(s, p) == n
  {
  }

  /** A scanning step: how many characters it passes, and the token it yields, if any. */
  datatype Scan = Scan(len: nat, toks: seq<Token>)

  function Word(w: string): Token {
    match w
    case "true" => BoolTok(true)
    case "false" => BoolTok(false)
    case "null" => NullTok
    case _ => Ident(w)
  }

  /** The step at the front of a non-empty text. An unterminated string passes one character more than there are. */
  function Next(s: string): (r: Scan)
    requires s != ""
    ensures 1 <= r.len <= |s| + 1 && |r.toks| <= 1
  {
    var c := s[0];
    var d := if |s| > 1 then s[1] else ' ';
    if c in " \t\n\r" then Scan(1, [])
    else if c == '\'' then
      var n := Span(s[1..], IsNotQuote);
      Scan(n + 2, [StrTok(s[1..n + 1])])
    else if IsDigit(c) || (c == '-' && IsDigit(d)) then
      var n := 1 + Span(s[1..], IsNumCont);
      Scan(n, [NumTok(s[..n])])
    else if c == '(' then Scan(1, [LParen])
    else if c == ')' then Scan(1, [RParen])
    else if c == ',' then Scan(1, [Comma])
    else if c == '.' then Scan(1, [Dot])
    else if c == '[' then Scan(1, [LBracket])
    else if c == ']' then Scan(1, [RBracket])
    else if c == '=' && d == '=' then Scan(2, [CmpTok(Eq)])
    else if c == '!' && d == '=' then Scan(2, [CmpTok(Neq)])
    else if c == '<' && d == '=' then Scan(2, [CmpTok(Lte)])
    else if c == '<' then Scan(1, [CmpTok(Lt)])
    else if c == '>' && d == '=' then Scan(2, [CmpTok(Gte)])
    else if c == '>' then Scan(1, [CmpTok(Gt)])
    else if c == '&' && d == '&' then Scan(2, [AndTok])
    else if c == '|' && d == '|' then Scan(2, [OrTok])
    else if c == '!' then Scan(1, [NotTok])
    else if IsIdentStart(c) then
      var n := Span(s, IsIdentCont);
      Scan(n, [Word(s[..n])])
    else Scan(1, [])
  }

  /** All tokens of a text, closed by the end marker. */
  function Lex(s: string): seq<Token>
    decreases |s|
  {
    if s == "" then [Eof]
    else
      var r := Next(s);
      if r.len > |s| then r.toks + [Eof] else r.toks + Lex(s[r.len..])
  }

  method Tokenize(s: string) returns (tokens: seq<Token>)
    ensures tokens == Lex(s)
  {
    hide Lex, Next, LexFrom;
    tokens := [];
    var i := 0;
    LexFromStart(s);
    while i < |s|
      invariant Lex(s) == tokens + LexFrom(s, i)
      decreases |s| - i
    {
      var j, found := ScanStep(s, i);
      LexFromStep(s, i);
      tokens := tokens + found;
      i := j;
    }
    LexFromEnd(s, i);
    tokens := tokens + [Eof];
  }

  /** The tokens from index `i` on, which may lie one past the end. */
  function LexFrom(s: string, i: nat): seq<Token> {
    if i <= |s| then Lex(s[i..]) else [Eof]
  }

  lemma LexFromStart(s: string)
    ensures LexFrom(s, 0) == Lex(s)
  {
    assert s[0..] == s;
  }

  lemma LexFromStep(s: string, i: nat)
    requires i < |s|
    ensures LexFrom(s, i) == Next(s[i..]).toks + LexFrom(s, i + Next(s[i..]).len)
  {
    var r := Next(s[i..]);
    if i + r.len <= |s| {
      assert s[i..][r.len..] == s[i + r.len..];
    }
  }

  lemma LexFromEnd(s: string, i: nat)
    requires i >= |s|
    ensures LexFrom(s, i) == [Eof]
  {
  }

  lemma NextAtQuote(s: string, i: nat, j: nat)
    requires i < |s| && s[i] == '\'' && j == i + 1 + Span(s[i + 1..], IsNotQuote)
    ensures Next(s[i..]) == Scan(j + 1 - i, [StrTok(s[i + 1..j])])
  {
    hide Span;
    assert s[i..][1..] == s[i + 1..] && s[i..][1..j - i] == s[i + 1..j];
  }

  lemma NextAtDigit(s: string, i: nat, j: nat)
    requires i < |s| && j == i + 1 + Span(s[i + 1..], IsNumCont)
    requires IsDigit(s[i]) || (s[i] == '-' && i + 1 < |s| && IsDigit(s[i + 1]))
    ensures Next(s[i..]) == Scan(j - i, [NumTok(s[i..j])])
  {
    hide Span;
    assert s[i..][1..] == s[i + 1..] && s[i..][..j - i] == s[i..j];
  }

  lemma NextAtWord(s: string, i: nat, j: nat)
    requires i < |s| && IsIdentStart(s[i]) && j == i + Span(s[i..], IsIdentCont)
    ensures j > i && Next(s[i..]) == Scan(j - i, [Word(s[i..j])])
  {
    assert s[i..][..j - i] == s[i..j];
  }

  lemma NextAtBlank(s: string, i: nat)
    requires i < |s| && s[i] in " \t\n\r"
    ensures Next(s[i..]) == Scan(1, [])
  {
  }

  /** One pass through the switch: the index to go on from, and the token found, if any. */
  method ScanStep(s: string, i: nat) returns (j: nat, found: seq<Token>)
    requires i < |s|
    ensures j > i && Next(s[i..]) == Scan(j - i, found)
  {
    hide Span, Word, IsNumCont, Next;
    var ch := s[i];
    if ch == ' ' || ch == '\t' || ch == '\n' || ch == '\r' {
      NextAtBlank(s, i);
      j, found := i + 1, [];
    } else if ch == '\'' {
      j := ScanWhile(s, i + 1, IsNotQuote);
      NextAtQuote(s, i, j);
      found := [StrTok(s[i + 1..j])];
      j := j + 1;
    } else if IsDigit(ch) || (ch == '-' && i + 1 < |s| && IsDigit(s[i + 1])) {
      j := ScanWhile(s, i + 1, IsNumCont);
      NextAtDigit(s, i, j);
      found := [NumTok(s[i..j])];
    } else if IsIdentStart(ch) {
      j := ScanWhile(s, i, IsIdentCont);
      NextAtWord(s, i, j);
      found := [Word(s[i..j])];
    } else {
      var len;
      len, found := Symbol(s, i);
      j := i + len;
    }
  }

  /** The inner scanning loops: the end of the run of `p` characters starting at `i`. */
  method ScanWhile(s: string, i: nat, p: char -> bool) returns (j: nat)
    requires i <= |s|
    ensures i <= j <= |s| && j == i + Span(s[i..], p)
  {
    j := i;
    while j < |s| && p(s[j])
      invariant i <= j <= |s|
      invariant forall k | i <= k < j :: p(s[k])
    {
      j := j + 1;
    }
    SpanUnique(s[i..], p, j - i);
  }

  /** Operators and punctuation; any other character yields nothing and is passed over. */
  method Symbol(s: string, i: nat) returns (len: nat, found: seq<Token>)
    requires i < |s| && s[i] !in " \t\n\r\'" && !IsIdentStart(s[i]) && !IsDigit(s[i])
    requires s[i] == '-' && i + 1 < |s| ==> !IsDigit(s[i + 1])
    ensures Next(s[i..]) == Scan(len, found)
  {
    hide Span, Word;
    var c := s[i];
    var d := if i + 1 < |s| then s[i + 1] else ' ';
    len, found := 1, [];
    if c == '(' { found := [LParen]; }
    else if c == ')' { found := [RParen]; }
    else if c == ',' { found := [Comma]; }
    else if c == '.' { found := [Dot]; }
    else if c == '[' { found := [LBracket]; }
    else if c == ']' { found := [RBracket]; }
    else if c == '=' && d == '=' { len, found := 2, [CmpTok(Eq)]; }
    else if c == '!' && d == '=' { len, found := 2, [CmpTok(Neq)]; }
    else if c == '<' && d == '=' { len, found := 2, [CmpTok(Lte)]; }
    else if c == '<' { found := [CmpTok(Lt)]; }
    else if c == '>' && d == '=' { len, found := 2, [CmpTok(Gte)]; }
    else if c == '>' { found := [CmpTok(Gt)]; }
    else if c == '&' && d == '&' { len, found := 2, [AndTok]; }
    else if c == '|' && d == '|' { len, found := 2, [OrTok]; }
    else if c == '!' { found := [NotTok]; }
  }

  // ---- writing tokens back ----

  /** Tokens a text can spell: quote-free strings, numerals, identifiers that are not keywords, the rest as is. */
  predicate Writable(t: Token) {
    match t
    case StrTok(s) => '\'' !in s
    case NumTok(s) => IsNumeral(s)
    case Ident(s) => s != "" && IsIdentStart(s[0]) && (forall c | c in s :: IsIdentCont(c)) && Word(s) == t
    case Eof => false
    case _ => true
  }

  predicate IsNumeral(s: string) {
    && s != ""
    && (IsDigit(s[0]) || (s[0] == '-' && |s| > 1 && IsDigit(s[1])))
    && (forall c | c in s[1..] :: IsNumCont(c))
  }

  function CmpText(op: CmpOp): string {
    match op
    case Eq => "=="
    case Neq => "!="
    case Lt => "<"
    case Lte => "<="
    case Gt => ">"
    case Gte => ">="
  }

  function TokText(t: Token): string {
    match t
    case StrTok(s) => "'" + s + "'"
    case NumTok(s) => s
    case BoolTok(b) => if b then "true" else "false"
    case NullTok => "null"
    case Ident(s) => s
    case LParen => "("
    case RParen => ")"
    case Comma => ","
    case Dot => "."
    case LBracket => "["
    case RBracket => "]"
    case CmpTok(op) => CmpText(op)
    case AndTok => "&&"
    case OrTok => "||"
    case NotTok => "!"
    case Eof => ""
  }

  /** A character right behind the token that cannot become part of it. */
  predicate Ends(t: Token, c: char) {
    match t
    case NumTok(_) => !IsNumCont(c)
    case BoolTok(_) => !IsIdentCont(c)
    case NullTok => !IsIdentCont(c)
    case Ident(_) => !IsIdentCont(c)
    case CmpTok(op) => (op == Lt || op == Gt) ==> c != '='
    case NotTok => c != '='
    case _ => true
  }

  /** Characters that never start a token, in any surroundings. */
  predicate IsGap(c: char) {
    && !IsIdentCont(c)
    && c !in "'(),.[]=!<>&|"
  }

  /** A token with the gap written in front of it. */
  datatype Piece = Piece(gap: string, tok: Token)

  function Tokens(ps: seq<Piece>): seq<Token> {
    if ps == [] then [] else [ps[0].tok] + Tokens(ps[1..])
  }

  function Write(ps: seq<Piece>, tail: string): string {
    if ps == [] then tail else ps[0].gap + TokText(ps[0].tok) + Write(ps[1..], tail)
  }

  /** Gaps hold gap characters only, and what follows a token, whatever that is, does not extend it. */
  predicate WellSpaced(ps: seq<Piece>, tail: string) {
    if ps == [] then forall c | c in tail :: IsGap(c)
    else
      var rest := Write(ps[1..], tail);
      && (forall c | c in ps[0].gap :: IsGap(c))
      && Writable(ps[0].tok)
      && (rest != "" ==> Ends(ps[0].tok, rest[0]))
      && WellSpaced(ps[1..], tail)
  }

  /** One more piece in front. */
  lemma PieceCons(p: Piece, ps: seq<Piece>, tail: string)
    ensures Write([p] + ps, tail) == p.gap + TokText(p.tok) + Write(ps, tail)
    ensures Tokens([p] + ps) == [p.tok] + Tokens(ps)
    ensures WellSpaced([p] + ps, tail) <==>
              && (forall c | c in p.gap :: IsGap(c))
              && Writable(p.tok)
              && (Write(ps, tail) != "" ==> Ends(p.tok, Write(ps, tail)[0]))
              && WellSpaced(ps, tail)
  {
    assert ([p] + ps)[1..] == ps;
  }

  lemma {:induction false} LexGap(gap: string, rest: string)
    requires forall c | c in gap :: IsGap(c)
    ensures Lex(gap + rest) == Lex(rest)
  {
    if gap == "" {
      assert gap + rest == rest;
    } else {
      var s := gap + rest;
      assert s[0] == gap[0] && gap[0] in gap;
      assert Next(s) == Scan(1, []);
      assert s[1..] == gap[1..] + rest;
      LexGap(gap[1..], rest);
    }
  }

  lemma NextQuoted(w: string, rest: string)
    requires '\'' !in w
    ensures Next("'" + w + "'" + rest) == Scan(|w| + 2, [StrTok(w)])
  {
    var s := "'" + w + "'" + rest;
    assert s[1..] == w + "'" + rest;
    SpanUnique(s[1..], IsNotQuote, |w|);
    assert s[1..|w| + 1] == w;
  }

  lemma NextNumeral(w: string, rest: string)
    requires IsNumeral(w) && (rest != "" ==> !IsNumCont(rest[0]))
    ensures Next(w + rest) == Scan(|w|, [NumTok(w)])
  {
    var s := w + rest;
    assert s[1..] == w[1..] + rest;
    SpanUnique(s[1..], IsNumCont, |w| - 1);
    assert s[..|w|] == w;
  }

  lemma NextWord(w: string, rest: string)
    requires w != "" && IsIdentStart(w[0]) && forall c | c in w :: IsIdentCont(c)
    requires rest != "" ==> !IsIdentCont(rest[0])
    ensures Next(w + rest) == Scan(|w|, [Word(w)])
  {
    var s := w + rest;
    SpanUnique(s, IsIdentCont, |w|);
    assert s[..|w|] == w;
  }

  lemma NextToken(t: Token, rest: string)
    requires Writable(t) && (rest != "" ==> Ends(t, rest[0]))
    ensures TokText(t) != "" && Next(TokText(t) + rest) == Scan(|TokText(t)|, [t])
  {
    hide Next;
    match t
    case StrTok(w) => NextQuoted(w, rest);
    case NumTok(w) => NextNumeral(w, rest);
    case Ident(w) => NextWord(w, rest);
    case BoolTok(b) => NextWord(if b then "true" else "false", rest);
    case NullTok => NextWord("null", rest);
    case _ => NextSymbol(t, rest);
  }

  lemma NextSymbol(t: Token, rest: string)
    requires Writable(t) && (rest != "" ==> Ends(t, rest[0]))
    requires !t.StrTok? && !t.NumTok? && !t.Ident? && !t.BoolTok? && !t.NullTok?
    ensures TokText(t) != "" && Next(TokText(t) + rest) == Scan(|TokText(t)|, [t])
  {
    hide Span, Word;
    if t.CmpTok? {
      NextOperator(t.op, rest);
    }
  }

  lemma NextOperator(op: CmpOp, rest: string)
    requires rest != "" ==> Ends(CmpTok(op), rest[0])
    ensures Next(CmpText(op) + rest) == Scan(|CmpText(op)|, [CmpTok(op)])
  {
    hide Span, Word;
  }

  // ---- single tokens ----

  /** A word of letters, digits, `_` and `-`, starting with a letter or `_`, is a name, but for the three keywords. */
  lemma WordsRead(w: string)
    requires w != "" && ('a' <= w[0] <= 'z' || 'A' <= w[0] <= 'Z' || w[0] == '_')
    requires forall c | c in w :: 'a' <= c <= 'z' || 'A' <= c <= 'Z' || c == '_' || '0' <= c <= '9' || c == '-'
    ensures Lex(w) == [match w
                       case "true" => BoolTok(true)
                       case "false" => BoolTok(false)
                       case "null" => NullTok
                       case _ => Ident(w), Eof]
  {
    NextWord(w, "");
    hide Next;
    assert w + "" == w && w[|w|..] == "";
    assert Lex("") == [Eof];
  }

  /** Digits and points, starting with a digit, possibly behind a minus sign, are one numeral. */
  lemma NumbersRead(n: string)
    requires n != "" && ('0' <= n[0] <= '9' || (n[0] == '-' && |n| > 1 && '0' <= n[1] <= '9'))
    requires forall c | c in n[1..] :: '0' <= c <= '9' || c == '.'
    ensures Lex(n) == [NumTok(n), Eof]
  {
    NextNumeral(n, "");
    hide Next;
    assert n + "" == n && n[|n|..] == "";
    assert Lex("") == [Eof];
  }

  /** Anything between two quotes is a text; without the second one the text goes up to the end. */
  lemma QuotesRead(w: string, rest: string)
    requires '\'' !in w
    ensures Lex("'" + w + "'" + rest) == [StrTok(w)] + Lex(rest)
    ensures Lex("'" + w) == [StrTok(w), Eof]
  {
    NextQuoted(w, rest);
    var s, t := "'" + w + "'" + rest, "'" + w;
    assert s[|w| + 2..] == rest;
    assert t[1..] == w && t[1..|w| + 1] == w;
    SpanUnique(w, IsNotQuote, |w|);
    assert Next(t) == Scan(|w| + 2, [StrTok(w)]);
    hide Next;
  }

  /** White space, and characters without a meaning, are passed over. */
  lemma StrayRead(c: char, rest: string)
    requires !('a' <= c <= 'z' || 'A' <= c <= 'Z' || '0' <= c <= '9') && c !in "_-'(),.[]=!<>&|"
    ensures Lex([c] + rest) == Lex(rest)
  {
    var s := [c] + rest;
    assert Next(s) == Scan(1, []);
    assert s[1..] == rest;
  }

  /** Round trip: a well-spaced text is read back as its tokens and exactly one end marker. */
  lemma {:induction false} LexWritten(ps: seq<Piece>, tail: string)
    requires WellSpaced(ps, tail)
    ensures Lex(Write(ps, tail)) == Tokens(ps) + [Eof]
  {
    hide Next, TokText, Writable, Ends;
    if ps == [] {
      LexGap(tail, "");
      assert tail + "" == tail;
    } else {
      var t, rest := ps[0].tok, Write(ps[1..], tail);
      var s := TokText(t) + rest;
      assert Write(ps, tail) == ps[0].gap + s;
      LexGap(ps[0].gap, s);
      NextToken(t, rest);
      assert s[|TokText(t)|..] == rest;
      LexWritten(ps[1..], tail);
    }
  }

  /** The tokens of one scanning step can all be written. */
  lemma NextWritable(s: string)
    requires s != ""
    ensures forall t | t in Next(s).toks :: Writable(t)
  {
  }

  /** Every text, well-formed or not, yields writable tokens and exactly one end marker, the last token. */
  lemma {:induction false} LexShape(s: string)
    ensures var r := Lex(s);
            |r| >= 1 && r[|r| - 1] == Eof && forall k | 0 <= k < |r| - 1 :: Writable(r[k])
    decreases |s|
  {
    if s != "" {
      var n := Next(s);
      NextWritable(s);
      if n.len <= |s| {
        LexShape(s[n.len..]);
        var more := Lex(s[n.len..]);
        assert Lex(s) == n.toks + more;
      } else {
        assert Lex(s) == n.toks + [Eof];
      }
    }
  }

  /** The tokens with a single space in front of each. */
  function Spaced(ts: seq<Token>): seq<Piece> {
    if ts == [] then [] else [Piece(" ", ts[0])] + Spaced(ts[1..])
  }

  lemma {:induction false} SpacedWell(ts: seq<Token>)
    requires forall t | t in ts :: Writable(t)
    ensures WellSpaced(Spaced(ts), "") && Tokens(Spaced(ts)) == ts
  {
    if ts != [] {
      SpacedWell(ts[1..]);
      assert ts[0] in ts;
    }
  }

  /** Normal form: rewriting any text as its own tokens, spaced out, does not change how it reads. */
  lemma LexNormalForm(s: string)
    ensures var r := Lex(s); |r| >= 1 && Lex(Write(Spaced(r[..|r| - 1]), "")) == r
  {
    hide Lex, Write, Spaced, Tokens, Writable, WellSpaced;
    LexShape(s);
    var r := Lex(s);
    assert r == r[..|r| - 1] + [Eof];
    SpacedWell(r[..|r| - 1]);
    LexWritten(Spaced(r[..|r| - 1]), "");
  }
}

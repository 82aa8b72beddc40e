/** Putting expression texts together: what the tokenizer makes of a text that is built from smaller ones, and which
    tree the result spells. */
module Phrases {
  import opened Text
  import opened Values
  import opened Context
  import opened Lexer
  import opened Grammar
  import opened Syntax
  import opened Evaluator

  // ---- tokens of a longer text ----

  /** The text does not end inside a quoted string. */
  predicate Whole(s: string)
    decreases |s|
  {
    s == "" || (Next(s).len <= |s| && Whole(s[Next(s).len..]))
  }

  /** Characters that extend no token in front of them. */
  predicate Breaks(c: char) {
    !IsIdentCont(c) && c !in ".=&|"
  }

  lemma QuoteBefore(s: string, t: string)
    requires s != "" && s[0] == '\'' && Next(s).len <= |s|
    ensures Next(s + t) == Next(s)
  {
    var n := Span(s[1..], IsNotQuote);
    var w, rest := s[1..n + 1], s[n + 2..];
    assert s[1 + n] == '\'';
    hide Next;
    assert s == "'" + w + "'" + rest && s + t == "'" + w + "'" + (rest + t);
    NextQuoted(w, rest);
    NextQuoted(w, rest + t);
  }

  lemma NumberBefore(s: string, t: string)
    requires s != "" && (IsDigit(s[0]) || (s[0] == '-' && |s| > 1 && IsDigit(s[1]))) && (t != "" ==> Breaks(t[0]))
    ensures Next(s + t) == Next(s)
  {
    hide Next;
    var n := 1 + Span(s[1..], IsNumCont);
    var w, rest := s[..n], s[n..];
    assert forall c | c in w[1..] :: IsNumCont(c);
    assert s == w + rest && s + t == w + (rest + t);
    assert rest != "" ==> rest[0] == s[1..][n - 1];
    NextNumeral(w, rest);
    NextNumeral(w, rest + t);
  }

  lemma WordBefore(s: string, t: string)
    requires s != "" && IsIdentStart(s[0]) && (t != "" ==> Breaks(t[0]))
    ensures Next(s + t) == Next(s)
  {
    hide Next, Word;
    var n := Span(s, IsIdentCont);
    var w, rest := s[..n], s[n..];
    assert s == w + rest && s + t == w + (rest + t);
    NextWord(w, rest);
    NextWord(w, rest + t);
  }

  lemma NextBefore(s: string, t: string)
    requires s != "" && Next(s).len <= |s| && (t != "" ==> Breaks(t[0]))
    ensures Next(s + t) == Next(s)
  {
    hide Next, Breaks, IsDigit, IsIdentStart;
    if s[0] == '\'' { QuoteBefore(s, t); }
    else if IsDigit(s[0]) || (s[0] == '-' && |s| > 1 && IsDigit(s[1])) { NumberBefore(s, t); }
    else if IsIdentStart(s[0]) { WordBefore(s, t); }
    else { SymbolBefore(s, t); }
  }

  lemma SymbolBefore(s: string, t: string)
    requires s != "" && s[0] != '\'' && !IsDigit(s[0]) && !(s[0] == '-' && |s| > 1 && IsDigit(s[1])) && !IsIdentStart(s[0])
    requires t != "" ==> Breaks(t[0])
    ensures Next(s + t) == Next(s)
  {
    hide Span, Word;
    assert |s| == 1 && t != "" ==> (s + t)[1] == t[0];
  }

  /** The tokens of a text, without the end marker. */
  function Front(s: string): seq<Token> {
    var r := Lex(s);
    if r == [] then [] else r[..|r| - 1]
  }

  lemma LexFront(s: string)
    ensures Lex(s) == Front(s) + [Eof]
  {
    hide Lex, Writable;
    LexShape(s);
  }

  /** A whole text in front of one that begins with a break: the tokens of the one, then those of the other. */
  lemma {:induction false} LexJoin(s: string, t: string)
    requires Whole(s) && (t != "" ==> Breaks(t[0]))
    ensures Lex(s + t) == Front(s) + Lex(t) && (Whole(t) ==> Whole(s + t))
    decreases |s|
  {
    hide Next, Front, Breaks, Lex, Whole;
    if s == "" {
      assert s + t == t;
      NoFront();
    } else {
      var n := Next(s).len;
      WholeStep(s);
      NextBefore(s, t);
      assert (s + t)[n..] == s[n..] + t;
      LexStep(s + t);
      LexJoin(s[n..], t) by { assert t != "" ==> Breaks(t[0]); }
      FrontStep(s);
    }
  }

  lemma WholeStep(s: string)
    requires Whole(s) && s != ""
    ensures Next(s).len <= |s| && Whole(s[Next(s).len..])
  {
  }

  lemma LexStep(s: string)
    requires s != "" && Next(s).len <= |s|
    ensures Lex(s) == Next(s).toks + Lex(s[Next(s).len..]) && (Whole(s[Next(s).len..]) ==> Whole(s))
  {
    hide Next;
  }

  lemma NoFront()
    ensures Front("") == []
  {
  }

  lemma FrontStep(s: string)
    requires s != "" && Next(s).len <= |s|
    ensures Front(s) == Next(s).toks + Front(s[Next(s).len..])
  {
    hide Next, Front;
    LexFront(s);
    LexFront(s[Next(s).len..]);
    assert Front(s) + [Eof] == Next(s).toks + Front(s[Next(s).len..]) + [Eof];
    SnocUnique(Front(s), Next(s).toks + Front(s[Next(s).len..]), Eof);
  }

  lemma SnocUnique(a: seq<Token>, b: seq<Token>, t: Token)
    requires a + [t] == b + [t]
    ensures a == b
  {
    assert a == (a + [t])[..|a + [t]| - 1] && b == (b + [t])[..|b + [t]| - 1];
  }

  /** A token in front of a text that does not extend it. */
  lemma LexToken(t: Token, rest: string)
    requires Writable(t) && (rest != "" ==> Ends(t, rest[0]))
    ensures Lex(TokText(t) + rest) == [t] + Lex(rest) && (Whole(rest) ==> Whole(TokText(t) + rest))
  {
    hide Next, TokText, Writable, Ends;
    NextToken(t, rest);
    assert (TokText(t) + rest)[|TokText(t)|..] == rest;
  }

  lemma LexSpace(rest: string)
    ensures Lex(" " + rest) == Lex(rest) && (Whole(rest) ==> Whole(" " + rest))
  {
    assert Next(" " + rest) == Scan(1, []);
    assert (" " + rest)[1..] == rest;
  }

  // ---- which tree a text spells ----

  ghost predicate Spells(s: string, e: Expr) {
    Whole(s) && Fits(e) && Lex(s) == Flatten(e) + [Eof]
  }

  lemma SpellsEval(pr: Prims, c: EvalContext, s: string, e: Expr)
    requires Spells(s, e)
    ensures EvalText(pr, c, s) == Denote(pr, c, e)
  {
    hide Lex, Denote, OrTree, Flatten, Fits, Whole;
    ReadIffSpelled(Lex(s), e);
  }

  lemma SpellsJoin(s: string, e: Expr, t: string)
    requires Spells(s, e) && (t != "" ==> Breaks(t[0]))
    ensures Lex(s + t) == Flatten(e) + Lex(t) && (Whole(t) ==> Whole(s + t))
  {
    hide Lex, Flatten, Fits, Whole, Front;
    LexJoin(s, t);
    LexFront(s);
    SnocUnique(Front(s), Flatten(e), Eof);
  }

  lemma SpellsToken(t: Token, e: Expr)
    requires Writable(t) && Flatten(e) == [t] && Fits(e)
    ensures Spells(TokText(t), e)
  {
    hide Writable, Flatten, Fits, TokText, Next;
    LexToken(t, "");
    assert TokText(t) + "" == TokText(t);
  }

  /** A quoted text, a numeral, `true`, `false` and `null`. */
  lemma SpellsLiteral(w: string, n: string)
    ensures '\'' !in w ==> Spells("'" + w + "'", StrLit(w))
    ensures IsNumeral(n) ==> Spells(n, NumLit(n))
    ensures Spells("true", BoolLit(true)) && Spells("false", BoolLit(false)) && Spells("null", NullLit)
  {
    hide Spells;
    if '\'' !in w { SpellsToken(StrTok(w), StrLit(w)); }
    if IsNumeral(n) { SpellsToken(NumTok(n), NumLit(n)); }
    SpellsToken(BoolTok(true), BoolLit(true));
    SpellsToken(BoolTok(false), BoolLit(false));
    SpellsToken(NullTok, NullLit);
  }

  /** An operator between two texts, with a space on either side. */
  lemma SpellsBinary(s: string, l: Expr, op: Token, t: string, r: Expr, e: Expr)
    requires Spells(s, l) && Spells(t, r) && (op.CmpTok? || op == AndTok || op == OrTok)
    requires Fits(e) && Flatten(e) == Flatten(l) + [op] + Flatten(r)
    ensures Spells(s + (" " + (TokText(op) + (" " + t))), e)
  {
    hide Lex, Flatten, Fits, Whole, TokText;
    LexSpace(t);
    LexToken(op, " " + t);
    LexSpace(TokText(op) + (" " + t));
    SpellsJoin(s, l, " " + (TokText(op) + (" " + t)));
  }

  lemma SpellsCmp(s: string, l: Expr, op: CmpOp, t: string, r: Expr)
    requires Spells(s, l) && Level(l) == 4 && Spells(t, r) && Level(r) == 4
    ensures Spells(s + " " + CmpText(op) + " " + t, Cmp(op, l, r))
  {
    hide Spells, Level;
    CmpFits(s, l, op, t, r);
    SpellsBinary(s, l, CmpTok(op), t, r, Cmp(op, l, r));
    assert s + (" " + (CmpText(op) + (" " + t))) == s + " " + CmpText(op) + " " + t;
  }

  lemma CmpFits(s: string, l: Expr, op: CmpOp, t: string, r: Expr)
    requires Spells(s, l) && Level(l) == 4 && Spells(t, r) && Level(r) == 4
    ensures Fits(Cmp(op, l, r))
  {
  }

  lemma SpellsAnd(s: string, l: Expr, t: string, r: Expr)
    requires Spells(s, l) && Level(l) >= 1 && Spells(t, r) && Level(r) >= 2
    ensures Spells(s + " && " + t, And(l, r))
  {
    hide Lex, Whole;
    SpellsBinary(s, l, AndTok, t, r, And(l, r));
    assert s + (" " + ("&&" + (" " + t))) == s + " && " + t;
  }

  lemma SpellsOr(s: string, l: Expr, t: string, r: Expr)
    requires Spells(s, l) && Spells(t, r) && Level(r) >= 1
    ensures Spells(s + " || " + t, Or(l, r))
  {
    hide Lex, Whole;
    SpellsBinary(s, l, OrTok, t, r, Or(l, r));
    assert s + (" " + ("||" + (" " + t))) == s + " || " + t;
  }

  /** A `!` right in front; a text that begins with a stray `=` would make it another operator. */
  lemma SpellsNot(s: string, e: Expr)
    requires Spells(s, e) && Level(e) >= 2 && (s != "" ==> s[0] != '=')
    ensures Spells("!" + s, Not(e))
  {
    hide Lex, Whole;
    LexToken(NotTok, s);
  }

  lemma SpellsParen(s: string, e: Expr)
    requires Spells(s, e)
    ensures Spells("(" + s + ")", Paren(e))
  {
    hide Lex, Whole;
    CloseParen();
    SpellsJoin(s, e, ")");
    LexToken(LParen, s + ")");
    assert "(" + (s + ")") == "(" + s + ")";
  }

  lemma CloseParen()
    ensures Lex(")") == [RParen, Eof] && Whole(")") && Breaks(')')
  {
    LexToken(RParen, "");
    assert ")" + "" == ")";
  }

  // ---- calls ----

  /** Argument texts, with a comma and a space between them. */
  function ArgText(ss: seq<string>): string {
    if ss == [] then "" else ss[0] + MoreText(ss[1..])
  }

  function MoreText(ss: seq<string>): string {
    if ss == [] then "" else ", " + ss[0] + MoreText(ss[1..])
  }

  ghost predicate SpellAll(ss: seq<string>, es: seq<Expr>) {
    |ss| == |es| && forall i | 0 <= i < |ss| :: Spells(ss[i], es[i])
  }

  lemma {:induction false} SpellsMore(ss: seq<string>, es: seq<Expr>)
    requires SpellAll(ss, es)
    ensures var t := MoreText(ss) + ")";
            Breaks(t[0]) && Whole(t) && Lex(t) == FlattenMore(es) + [RParen, Eof] && FitsAll(es)
    decreases |ss|
  {
    CloseParen();
    hide Lex, Whole, Flatten;
    if ss == [] {
      assert MoreText(ss) + ")" == ")";
      assert FlattenMore(es) + [RParen, Eof] == [RParen, Eof];
    } else {
      var t := MoreText(ss[1..]) + ")";
      assert MoreText(ss) + ")" == ", " + ss[0] + t;
      assert FlattenMore(es) + [RParen, Eof] == [Comma] + Flatten(es[0]) + (FlattenMore(es[1..]) + [RParen, Eof]);
      SpellsMore(ss[1..], es[1..]);
      hide MoreText, FlattenMore;
      SpellsOneMore(ss[0], es[0], t);
    }
  }

  lemma SpellsOneMore(s: string, e: Expr, t: string)
    requires Spells(s, e) && t != "" && Breaks(t[0]) && Whole(t)
    ensures Lex(", " + s + t) == [Comma] + Flatten(e) + Lex(t) && Whole(", " + s + t)
  {
    hide Lex, Whole, Flatten, Fits, Spells;
    SpellsJoin(s, e, t);
    LexSpace(s + t);
    LexToken(Comma, " " + (s + t));
    assert ", " + s + t == "," + (" " + (s + t));
  }

  lemma SpellsArgs(ss: seq<string>, es: seq<Expr>)
    requires SpellAll(ss, es)
    ensures var t := ArgText(ss) + ")"; Whole(t) && Lex(t) == FlattenArgs(es) + [RParen, Eof] && FitsAll(es)
  {
    CloseParen();
    hide Lex, Whole, Flatten;
    if ss == [] {
      assert ArgText(ss) + ")" == ")";
      assert FlattenArgs(es) + [RParen, Eof] == [RParen, Eof];
    } else {
      SpellsMore(ss[1..], es[1..]);
      var t := MoreText(ss[1..]) + ")";
      SpellsJoin(ss[0], es[0], t);
      assert ArgText(ss) + ")" == ss[0] + t;
      assert FlattenArgs(es) + [RParen, Eof] == Flatten(es[0]) + (FlattenMore(es[1..]) + [RParen, Eof]);
    }
  }

  lemma SpellsCall(f: string, ss: seq<string>, es: seq<Expr>)
    requires Writable(Ident(f)) && SpellAll(ss, es)
    ensures Spells(f + "(" + ArgText(ss) + ")", Call(f, es))
  {
    hide Lex, Whole, Writable, SpellAll, FlattenArgs, FitsAll;
    SpellsArgs(ss, es);
    var t := ArgText(ss) + ")";
    LexToken(LParen, t) by { SymbolsWritable(); }
    LexToken(Ident(f), "(" + t);
    assert f + "(" + ArgText(ss) + ")" == f + ("(" + t);
    assert Flatten(Call(f, es)) + [Eof] == [Ident(f)] + ([LParen] + (FlattenArgs(es) + [RParen, Eof]));
  }

  // ---- paths ----

  function SegText(seg: Seg): string {
    match seg
    case Prop(x) => "." + x
    case At(i) => "[" + i + "]"
  }

  function PathText(segs: seq<Seg>): string {
    if segs == [] then "" else SegText(segs[0]) + PathText(segs[1..])
  }

  predicate WritableSeg(seg: Seg) {
    match seg
    case Prop(x) => Writable(Ident(x))
    case At(i) => IsNumeral(i)
  }

  lemma SpellsSeg(seg: Seg, rest: string)
    requires WritableSeg(seg) && (rest != "" ==> rest[0] == '.' || rest[0] == '[')
    ensures Lex(SegText(seg) + rest) == OneSeg(seg) + Lex(rest) && (Whole(rest) ==> Whole(SegText(seg) + rest))
  {
    hide Lex, Whole, Writable, IsNumeral;
    match seg
    case Prop(x) => SpellsProp(x, rest);
    case At(i) => SpellsAt(i, rest);
  }

  lemma SpellsProp(x: string, rest: string)
    requires Writable(Ident(x)) && (rest != "" ==> rest[0] == '.' || rest[0] == '[')
    ensures Lex("." + x + rest) == [Dot, Ident(x)] + Lex(rest) && (Whole(rest) ==> Whole("." + x + rest))
  {
    hide Lex, Whole, Writable;
    PunctuationWritable();
    LexToken(Ident(x), rest);
    LexToken(Dot, x + rest);
    assert "." + x + rest == "." + (x + rest);
  }

  lemma SpellsAt(i: string, rest: string)
    requires IsNumeral(i)
    ensures Lex("[" + i + "]" + rest) == [LBracket, NumTok(i), RBracket] + Lex(rest)
    ensures Whole(rest) ==> Whole("[" + i + "]" + rest)
  {
    hide Lex, Whole, Writable, IsNumeral;
    PunctuationWritable();
    NumeralWritable(i);
    LexToken(RBracket, rest);
    LexToken(NumTok(i), "]" + rest);
    LexToken(LBracket, i + ("]" + rest));
    assert "[" + i + "]" + rest == "[" + (i + ("]" + rest));
  }

  lemma PunctuationWritable()
    ensures Writable(Dot) && Writable(LBracket) && Writable(RBracket)
  {
  }

  lemma NumeralWritable(n: string)
    requires IsNumeral(n)
    ensures Writable(NumTok(n))
  {
  }

  lemma SegStart(seg: Seg)
    ensures var t := SegText(seg); t != "" && (t[0] == '.' || t[0] == '[')
  {
  }

  lemma {:induction false} SpellsSegs(segs: seq<Seg>)
    requires forall seg | seg in segs :: WritableSeg(seg)
    ensures var t := PathText(segs);
            Whole(t) && Lex(t) == SegTokens(segs) + [Eof] && (t != "" ==> t[0] == '.' || t[0] == '[')
  {
    hide WritableSeg, OneSeg;
    if segs == [] {
      assert Lex("") == [Eof];
    } else {
      hide Lex, Whole, SegText;
      SpellsSegs(segs[1..]);
      SegStart(segs[0]);
      SpellsSeg(segs[0], PathText(segs[1..]));
    }
  }

  /** A name with property and index links behind it, without spaces. */
  lemma SpellsPath(h: string, segs: seq<Seg>)
    requires Writable(Ident(h)) && forall seg | seg in segs :: WritableSeg(seg)
    ensures Spells(h + PathText(segs), Path(h, segs))
  {
    hide Lex, Whole, Writable, WritableSeg, PathText, SegTokens;
    SpellsSegs(segs);
    LexToken(Ident(h), PathText(segs));
  }
}

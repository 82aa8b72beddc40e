/** The grammar as a recognizer: which tree, if any, starts at a position of a token list, and where it ends.
    It is proved to be the exact inverse of the spelling `Flatten`, in both directions. */
module Syntax {
  import opened Values
  import opened Lexer
  import opened Grammar

  datatype Parsed<+T> = Fail | Got(val: T, next: nat)

  function Peek(ts: seq<Token>, p: nat): Token {
    if p < |ts| then ts[p] else Eof
  }

  /** The tokens from `p` up to `q` are `part`. */
  predicate Slice(ts: seq<Token>, p: nat, q: nat, part: seq<Token>) {
    p <= q <= |ts| && ts[p..q] == part
  }

  lemma SliceJoin(ts: seq<Token>, p: nat, m: nat, q: nat, a: seq<Token>, b: seq<Token>)
    requires Slice(ts, p, m, a) && Slice(ts, m, q, b)
    ensures Slice(ts, p, q, a + b)
  {
  }

  lemma SliceOne(ts: seq<Token>, p: nat)
    requires p < |ts|
    ensures Slice(ts, p, p + 1, [ts[p]])
  {
  }

  lemma SliceSplit(ts: seq<Token>, p: nat, q: nat, a: seq<Token>, b: seq<Token>)
    requires Slice(ts, p, q, a + b)
    ensures Slice(ts, p, p + |a|, a) && Slice(ts, p + |a|, q, b)
  {
    assert ts[p..p + |a|] == (a + b)[..|a|] == a;
    assert ts[p + |a|..q] == (a + b)[|a|..] == b;
  }

  /** A tree that fits the grammar at the given level or tighter is spelled from `p` to `q`. */
  predicate Spelled(ts: seq<Token>, p: nat, q: nat, e: Expr, level: nat) {
    Slice(ts, p, q, Flatten(e)) && Fits(e) && Level(e) >= level && p < q
  }

  function OrTree(ts: seq<Token>, p: nat): (r: Parsed<Expr>)
    ensures r.Got? ==> Spelled(ts, p, r.next, r.val, 0)
    decreases |ts| - p, 5
  {
    match AndTree(ts, p)
    case Fail => Fail
    case Got(l, q) => OrMore(ts, p, q, l)
  }

  /** `l` has been read up to `q`; further `||` operands are taken in, leaning left. */
  function OrMore(ts: seq<Token>, p: nat, q: nat, l: Expr): (r: Parsed<Expr>)
    requires Spelled(ts, p, q, l, 0)
    ensures r.Got? ==> r.next >= q && Spelled(ts, p, r.next, r.val, 0)
    decreases |ts| - q, 4
  {
    if Peek(ts, q) != OrTok then Got(l, q)
    else
      match AndTree(ts, q + 1)
      case Fail => Fail
      case Got(r, q2) =>
        assert Spelled(ts, p, q2, Or(l, r), 0) by { BinarySpelled(ts, p, q, q2, l, r); }
        OrMore(ts, p, q2, Or(l, r))
  }

  function AndTree(ts: seq<Token>, p: nat): (r: Parsed<Expr>)
    ensures r.Got? ==> Spelled(ts, p, r.next, r.val, 1)
    decreases |ts| - p, 4
  {
    match NotTree(ts, p)
    case Fail => Fail
    case Got(l, q) => AndMore(ts, p, q, l)
  }

  function AndMore(ts: seq<Token>, p: nat, q: nat, l: Expr): (r: Parsed<Expr>)
    requires Spelled(ts, p, q, l, 1)
    ensures r.Got? ==> r.next >= q && Spelled(ts, p, r.next, r.val, 1)
    decreases |ts| - q, 3
  {
    if Peek(ts, q) != AndTok then Got(l, q)
    else
      match NotTree(ts, q + 1)
      case Fail => Fail
      case Got(r, q2) =>
        assert Spelled(ts, p, q2, And(l, r), 1) by { BinarySpelled(ts, p, q, q2, l, r); }
        AndMore(ts, p, q2, And(l, r))
  }

  function NotTree(ts: seq<Token>, p: nat): (r: Parsed<Expr>)
    ensures r.Got? ==> Spelled(ts, p, r.next, r.val, 2)
    decreases |ts| - p, 3
  {
    if Peek(ts, p) == NotTok then
      match NotTree(ts, p + 1)
      case Fail => Fail
      case Got(e, q) =>
        assert Slice(ts, p, q, Flatten(Not(e))) by { SliceOne(ts, p); SliceJoin(ts, p, p + 1, q, [NotTok], Flatten(e)); }
        Got(Not(e), q)
    else CmpTree(ts, p)
  }

  function CmpTree(ts: seq<Token>, p: nat): (r: Parsed<Expr>)
    ensures r.Got? ==> Spelled(ts, p, r.next, r.val, 3)
    decreases |ts| - p, 2
  {
    match PrimaryTree(ts, p)
    case Fail => Fail
    case Got(l, q) =>
      if !Peek(ts, q).CmpTok? then Got(l, q)
      else
        match PrimaryTree(ts, q + 1)
        case Fail => Fail
        case Got(r, q2) =>
          var e := Cmp(ts[q].op, l, r);
          assert Spelled(ts, p, q2, e, 3) by { BinarySpelled(ts, p, q, q2, l, r); }
          Got(e, q2)
  }

  function PrimaryTree(ts: seq<Token>, p: nat): (r: Parsed<Expr>)
    ensures r.Got? ==> Spelled(ts, p, r.next, r.val, 4)
    decreases |ts| - p, 1
  {
    match Peek(ts, p)
    case LParen =>
      (match OrTree(ts, p + 1)
       case Fail => Fail
       case Got(e, q) =>
         if Peek(ts, q) != RParen then Fail
         else
           assert Slice(ts, p, q + 1, Flatten(Paren(e))) by { BracketSpelled(ts, p, q, Flatten(e)); }
           Got(Paren(e), q + 1))
    case StrTok(s) => Got(StrLit(s), p + 1)
    case NumTok(n) => Got(NumLit(n), p + 1)
    case BoolTok(b) => Got(BoolLit(b), p + 1)
    case NullTok => Got(NullLit, p + 1)
    case Ident(x) => IdentTree(ts, p, x)
    case _ => Fail
  }

  function IdentTree(ts: seq<Token>, p: nat, x: string): (r: Parsed<Expr>)
    requires Peek(ts, p) == Ident(x)
    ensures r.Got? ==> Spelled(ts, p, r.next, r.val, 4)
    decreases |ts| - p, 0
  {
    if Peek(ts, p + 1) == LParen then
      match ArgsTree(ts, p + 2)
      case Fail => Fail
      case Got(args, q) =>
        if Peek(ts, q) != RParen then Fail
        else
          assert Slice(ts, p, q + 1, Flatten(Call(x, args))) by { CallSpelled(ts, p, q, x, args); }
          Got(Call(x, args), q + 1)
    else
      match SegsTree(ts, p + 1)
      case Fail => Fail
      case Got(segs, q) =>
        assert Slice(ts, p, q, Flatten(Path(x, segs))) by {
          SliceOne(ts, p);
          SliceJoin(ts, p, p + 1, q, [Ident(x)], SegTokens(segs));
        }
        Got(Path(x, segs), q)
  }

  function ArgsTree(ts: seq<Token>, p: nat): (r: Parsed<seq<Expr>>)
    ensures r.Got? ==> Slice(ts, p, r.next, FlattenArgs(r.val)) && FitsAll(r.val)
    ensures r.Got? ==> r.next >= p
    decreases |ts| - p, 6
  {
    if p > |ts| then Fail
    else if Peek(ts, p) in {RParen, Eof} then Got([], p)
    else
      match OrTree(ts, p)
      case Fail => Fail
      case Got(e, q) =>
        match MoreArgs(ts, q)
        case Fail => Fail
        case Got(es, q2) =>
          assert Slice(ts, p, q2, FlattenArgs([e] + es)) by {
            SliceJoin(ts, p, q, q2, Flatten(e), FlattenMore(es));
            assert ([e] + es)[1..] == es;
          }
          Got([e] + es, q2)
  }

  function MoreArgs(ts: seq<Token>, p: nat): (r: Parsed<seq<Expr>>)
    requires p <= |ts|
    ensures r.Got? ==> Slice(ts, p, r.next, FlattenMore(r.val)) && FitsAll(r.val)
    ensures r.Got? ==> r.next >= p
    decreases |ts| - p, 6
  {
    if Peek(ts, p) in {RParen, Eof} then Got([], p)
    else if Peek(ts, p) != Comma then Fail
    else
      match OrTree(ts, p + 1)
      case Fail => Fail
      case Got(e, q) =>
        match MoreArgs(ts, q)
        case Fail => Fail
        case Got(es, q2) =>
          assert Slice(ts, p, q2, FlattenMore([e] + es)) by {
            SliceOne(ts, p);
            SliceJoin(ts, p, p + 1, q, [Comma], Flatten(e));
            SliceJoin(ts, p, q, q2, [Comma] + Flatten(e), FlattenMore(es));
            assert ([e] + es)[1..] == es;
          }
          Got([e] + es, q2)
  }

  function SegsTree(ts: seq<Token>, p: nat): (r: Parsed<seq<Seg>>)
    requires p <= |ts|
    ensures r.Got? ==> Slice(ts, p, r.next, SegTokens(r.val))
    decreases |ts| - p
  {
    if Peek(ts, p) !in {Dot, LBracket} then Got([], p)
    else
      match SegTree(ts, p)
      case Fail => Fail
      case Got(s, m) =>
        match SegsTree(ts, m)
        case Fail => Fail
        case Got(segs, q) =>
          assert Slice(ts, p, q, SegTokens([s] + segs)) by {
            SliceJoin(ts, p, m, q, OneSeg(s), SegTokens(segs));
            assert ([s] + segs)[1..] == segs;
          }
          Got([s] + segs, q)
  }

  /** One link of a property chain: `.name` or `[number]`. */
  function SegTree(ts: seq<Token>, p: nat): (r: Parsed<Seg>)
    ensures r.Got? ==> r.next > p && Slice(ts, p, r.next, OneSeg(r.val))
  {
    var t := Peek(ts, p + 1);
    if Peek(ts, p) == Dot && t.Ident? then
      assert ts[p..p + 2] == [Dot, t];
      Got(Prop(t.s), p + 2)
    else if Peek(ts, p) == LBracket && t.NumTok? && Peek(ts, p + 2) == RBracket then
      assert ts[p..p + 3] == [LBracket, t, RBracket];
      Got(At(t.s), p + 3)
    else Fail
  }

  lemma BinarySpelled(ts: seq<Token>, p: nat, q: nat, q2: nat, l: Expr, r: Expr)
    requires q < |ts| && Slice(ts, p, q, Flatten(l)) && Slice(ts, q + 1, q2, Flatten(r))
    ensures Slice(ts, p, q2, Flatten(l) + [ts[q]] + Flatten(r))
  {
    SliceOne(ts, q);
    SliceJoin(ts, p, q, q + 1, Flatten(l), [ts[q]]);
    SliceJoin(ts, p, q + 1, q2, Flatten(l) + [ts[q]], Flatten(r));
  }

  lemma CallSpelled(ts: seq<Token>, p: nat, q: nat, x: string, args: seq<Expr>)
    requires q < |ts| && Slice(ts, p + 2, q, FlattenArgs(args))
    requires ts[p] == Ident(x) && ts[p + 1] == LParen && ts[q] == RParen
    ensures Slice(ts, p, q + 1, Flatten(Call(x, args)))
  {
    BracketSpelled(ts, p + 1, q, FlattenArgs(args));
    SliceOne(ts, p);
    SliceJoin(ts, p, p + 1, q + 1, [Ident(x)], [LParen] + FlattenArgs(args) + [RParen]);
    assert [Ident(x)] + ([LParen] + FlattenArgs(args) + [RParen]) == Flatten(Call(x, args));
  }

  lemma BracketSpelled(ts: seq<Token>, p: nat, q: nat, inner: seq<Token>)
    requires p < |ts| && q < |ts| && Slice(ts, p + 1, q, inner)
    ensures Slice(ts, p, q + 1, [ts[p]] + inner + [ts[q]])
  {
    SliceOne(ts, p);
    SliceOne(ts, q);
    SliceJoin(ts, p, p + 1, q, [ts[p]], inner);
    SliceJoin(ts, p, q, q + 1, [ts[p]] + inner, [ts[q]]);
  }

  // ---- every spelling is read back ----

  /** The token does not continue a property chain or turn an identifier into a call. */
  predicate EndsPrimary(t: Token) {
    t !in {LParen, Dot, LBracket}
  }

  predicate EndsNot(t: Token) {
    EndsPrimary(t) && !t.CmpTok?
  }

  lemma {:induction false} FirstToken(e: Expr)
    requires Fits(e)
    ensures |Flatten(e)| > 0 && Flatten(e)[0] !in {RParen, Eof}
    ensures Level(e) >= 3 ==> Flatten(e)[0] != NotTok
    decreases e
  {
    match e
    case Cmp(_, l, _) => FirstToken(l);
    case And(l, _) => FirstToken(l);
    case Or(l, _) => FirstToken(l);
    case _ =>
  }

  /** A binary spelling, taken apart: left operand, operator, right operand. */
  lemma BinarySplit(ts: seq<Token>, p: nat, q: nat, l: Expr, op: Token, r: Expr) returns (m: nat)
    requires Fits(l) && Fits(r) && Slice(ts, p, q, Flatten(l) + [op] + Flatten(r))
    ensures p < m < q && ts[m] == op
    ensures Spelled(ts, p, m, l, Level(l)) && Spelled(ts, m + 1, q, r, Level(r))
  {
    hide Flatten, Fits;
    m := p + |Flatten(l)|;
    assert Flatten(l) + [op] + Flatten(r) == Flatten(l) + ([op] + Flatten(r));
    SliceSplit(ts, p, q, Flatten(l), [op] + Flatten(r));
    SliceSplit(ts, m, q, [op], Flatten(r));
    assert ts[m] == ts[m..m + 1][0];
    FirstToken(l);
    FirstToken(r);
  }

  lemma {:induction false} ReadOr(ts: seq<Token>, p: nat, q: nat, e: Expr)
    requires Spelled(ts, p, q, e, 0) && EndsNot(Peek(ts, q)) && Peek(ts, q) != AndTok
    ensures OrTree(ts, p) == OrMore(ts, p, q, e)
    decreases e, 5
  {
    hide AndTree;
    if e.Or? {
      var m := BinarySplit(ts, p, q, e.l, OrTok, e.r);
      ReadOr(ts, p, m, e.l);
      ReadAnd(ts, m + 1, q, e.r);
    } else {
      ReadAnd(ts, p, q, e);
    }
  }

  lemma {:induction false} ReadAnd(ts: seq<Token>, p: nat, q: nat, e: Expr)
    requires Spelled(ts, p, q, e, 1) && EndsNot(Peek(ts, q))
    ensures AndTree(ts, p) == AndMore(ts, p, q, e)
    decreases e, 4
  {
    hide NotTree;
    if e.And? {
      assert Flatten(e) == Flatten(e.l) + [AndTok] + Flatten(e.r);
      var m := BinarySplit(ts, p, q, e.l, AndTok, e.r);
      ReadAnd(ts, p, m, e.l);
      ReadNot(ts, m + 1, q, e.r);
    } else {
      ReadNot(ts, p, q, e);
    }
  }

  lemma {:induction false} ReadNot(ts: seq<Token>, p: nat, q: nat, e: Expr)
    requires Spelled(ts, p, q, e, 2) && EndsNot(Peek(ts, q))
    ensures NotTree(ts, p) == Got(e, q)
    decreases e, 3
  {
    FirstToken(e);
    assert ts[p] == ts[p..q][0];
    if e.Not? {
      SliceSplit(ts, p, q, [NotTok], Flatten(e.e));
      FirstToken(e.e);
      ReadNot(ts, p + 1, q, e.e);
    } else {
      ReadCmp(ts, p, q, e);
    }
  }

  lemma {:induction false} ReadCmp(ts: seq<Token>, p: nat, q: nat, e: Expr)
    requires Spelled(ts, p, q, e, 3) && EndsNot(Peek(ts, q))
    ensures CmpTree(ts, p) == Got(e, q)
    decreases e, 2
  {
    hide PrimaryTree;
    if e.Cmp? {
      var m := BinarySplit(ts, p, q, e.l, CmpTok(e.op), e.r);
      ReadPrimary(ts, p, m, e.l);
      ReadPrimary(ts, m + 1, q, e.r);
    } else {
      ReadPrimary(ts, p, q, e);
    }
  }

  lemma {:induction false} ReadPrimary(ts: seq<Token>, p: nat, q: nat, e: Expr)
    requires Spelled(ts, p, q, e, 4) && EndsPrimary(Peek(ts, q))
    ensures PrimaryTree(ts, p) == Got(e, q)
    decreases e, 1
  {
    assert ts[p] == ts[p..q][0];
    match e
    case Paren(e1) => ReadParen(ts, p, q, e1);
    case Call(f, args) => ReadCall(ts, p, q, f, args);
    case Path(h, segs) => ReadPath(ts, p, q, h, segs);
    case _ =>
  }

  lemma {:induction false} ReadParen(ts: seq<Token>, p: nat, q: nat, e: Expr)
    requires Spelled(ts, p, q, Paren(e), 4)
    ensures PrimaryTree(ts, p) == Got(Paren(e), q)
    decreases e, 6
  {
    BracketSplit(ts, p, q, LParen, Flatten(e), RParen);
    FirstToken(e);
    ReadOr(ts, p + 1, q - 1, e);
  }

  lemma {:induction false} ReadCall(ts: seq<Token>, p: nat, q: nat, f: string, args: seq<Expr>)
    requires Spelled(ts, p, q, Call(f, args), 4)
    ensures PrimaryTree(ts, p) == Got(Call(f, args), q)
    decreases args, 1
  {
    hide ArgsTree, FlattenArgs;
    var inner := [LParen] + FlattenArgs(args) + [RParen];
    assert Flatten(Call(f, args)) == [Ident(f)] + inner;
    SliceSplit(ts, p, q, [Ident(f)], inner);
    assert ts[p] == ts[p..p + 1][0];
    BracketSplit(ts, p + 1, q, LParen, FlattenArgs(args), RParen);
    ReadArgs(ts, p + 2, q - 1, args);
  }

  lemma ReadPath(ts: seq<Token>, p: nat, q: nat, h: string, segs: seq<Seg>)
    requires Spelled(ts, p, q, Path(h, segs), 4) && EndsPrimary(Peek(ts, q))
    ensures PrimaryTree(ts, p) == Got(Path(h, segs), q)
  {
    SliceSplit(ts, p, q, [Ident(h)], SegTokens(segs));
    assert ts[p] == ts[p..p + 1][0];
    ReadSegs(ts, p + 1, q, segs);
    if segs != [] {
      assert ts[p + 1] == ts[p + 1..q][0];
    }
  }

  lemma OrMoreStops(ts: seq<Token>, p: nat, q: nat, e: Expr)
    requires Spelled(ts, p, q, e, 0) && Peek(ts, q) != OrTok
    ensures OrMore(ts, p, q, e) == Got(e, q)
  {
  }

  lemma BracketSplit(ts: seq<Token>, p: nat, q: nat, a: Token, inner: seq<Token>, b: Token)
    requires Slice(ts, p, q, [a] + inner + [b])
    ensures p + 1 < q && ts[p] == a && ts[q - 1] == b && Slice(ts, p + 1, q - 1, inner)
  {
    assert [a] + inner + [b] == [a] + (inner + [b]);
    SliceSplit(ts, p, q, [a], inner + [b]);
    SliceSplit(ts, p + 1, q, inner, [b]);
    assert ts[p] == ts[p..p + 1][0] && ts[q - 1] == ts[q - 1..q][0];
  }

  lemma {:induction false} ReadArgs(ts: seq<Token>, p: nat, q: nat, args: seq<Expr>)
    requires Slice(ts, p, q, FlattenArgs(args)) && FitsAll(args) && Peek(ts, q) == RParen
    ensures ArgsTree(ts, p) == Got(args, q)
    decreases args, 0
  {
    hide OrTree, OrMore, MoreArgs, Flatten, Fits;
    if args != [] {
      var m := p + |Flatten(args[0])|;
      SliceSplit(ts, p, q, Flatten(args[0]), FlattenMore(args[1..]));
      FirstToken(args[0]);
      assert ts[p] == ts[p..m][0];
      ReadMore(ts, m, q, args[1..]);
      ReadOr(ts, p, m, args[0]);
      OrMoreStops(ts, p, m, args[0]);
      assert args == [args[0]] + args[1..];
    }
  }

  /** The arguments behind the first; they start at a comma or at the closing parenthesis. */
  lemma {:induction false} ReadMore(ts: seq<Token>, p: nat, q: nat, args: seq<Expr>)
    requires Slice(ts, p, q, FlattenMore(args)) && FitsAll(args) && Peek(ts, q) == RParen
    ensures MoreArgs(ts, p) == Got(args, q)
    ensures Peek(ts, p) in {Comma, RParen}
    decreases args, 0
  {
    hide OrTree, OrMore, Flatten, Fits;
    if args != [] {
      var m := p + 1 + |Flatten(args[0])|;
      assert FlattenMore(args) == [Comma] + Flatten(args[0]) + FlattenMore(args[1..]);
      SliceSplit(ts, p, q, [Comma] + Flatten(args[0]), FlattenMore(args[1..]));
      SliceSplit(ts, p, m, [Comma], Flatten(args[0]));
      assert ts[p] == ts[p..p + 1][0];
      FirstToken(args[0]);
      ReadMore(ts, m, q, args[1..]);
      ReadOr(ts, p + 1, m, args[0]);
      OrMoreStops(ts, p + 1, m, args[0]);
      assert args == [args[0]] + args[1..];
    }
  }

  lemma {:induction false} ReadSegs(ts: seq<Token>, p: nat, q: nat, segs: seq<Seg>)
    requires Slice(ts, p, q, SegTokens(segs)) && EndsPrimary(Peek(ts, q))
    ensures SegsTree(ts, p) == Got(segs, q)
    decreases |segs|
  {
    if segs != [] {
      var m := p + |OneSeg(segs[0])|;
      SliceSplit(ts, p, q, OneSeg(segs[0]), SegTokens(segs[1..]));
      ReadSegs(ts, m, q, segs[1..]);
      ReadSeg(ts, p, m, segs[0], q, segs[1..]);
      assert segs == [segs[0]] + segs[1..];
    }
  }

  lemma ReadSeg(ts: seq<Token>, p: nat, m: nat, s: Seg, q: nat, segs: seq<Seg>)
    requires Slice(ts, p, m, OneSeg(s)) && SegsTree(ts, m) == Got(segs, q)
    ensures SegsTree(ts, p) == Got([s] + segs, q)
  {
    var head := ts[p..m];
    assert ts[p] == head[0] && ts[p + 1] == head[1];
    if s.At? {
      assert ts[p + 2] == head[2];
    }
  }

  /** A second comparison operator is not taken in: reading stops in front of it. */
  lemma ChainStops(ts: seq<Token>, p: nat, m: nat, q: nat, x: Expr, y: Expr)
    requires Spelled(ts, p, m, x, 4) && Peek(ts, m).CmpTok? && Spelled(ts, m + 1, q, y, 4) && Peek(ts, q).CmpTok?
    ensures OrTree(ts, p) == Got(Cmp(ts[m].op, x, y), q)
  {
    hide PrimaryTree, Flatten, Fits;
    ReadPrimary(ts, p, m, x);
    ReadPrimary(ts, m + 1, q, y);
    var e := Cmp(ts[m].op, x, y);
    assert CmpTree(ts, p) == Got(e, q);
    FirstToken(x);
    assert ts[p] == ts[p..m][0];
    assert NotTree(ts, p) == Got(e, q);
    assert AndTree(ts, p) == AndMore(ts, p, q, e) == Got(e, q);
  }

  /** Reading and spelling are inverse to each other on whole token lists: a tree is read from a list closed by
      the end marker exactly when it fits the grammar and the list is its spelling. */
  lemma ReadIffSpelled(ts: seq<Token>, e: Expr)
    requires |ts| >= 1 && ts[|ts| - 1] == Eof
    ensures OrTree(ts, 0) == Got(e, |ts| - 1) <==> Fits(e) && ts == Flatten(e) + [Eof]
  {
    var n := |ts| - 1;
    if OrTree(ts, 0) == Got(e, n) {
      assert ts == ts[0..n] + [Eof];
    }
    if Fits(e) && ts == Flatten(e) + [Eof] {
      FirstToken(e);
      assert ts[0..n] == Flatten(e);
      ReadOr(ts, 0, n, e);
    }
  }
}

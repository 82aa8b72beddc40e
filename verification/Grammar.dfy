/** Expression trees: what they mean, how they are spelled as tokens, and where they need parentheses. */
module Grammar {
  import opened Text
  import opened Values
  import opened Context
  import opened Builtins
  import opened Lexer

  datatype Seg = Prop(name: string) | At(index: string)

  datatype Expr =
    | StrLit(s: string)
    | NumLit(n: string)
    | BoolLit(b: bool)
    | NullLit
    | Path(head: string, segs: seq<Seg>)
    | Call(f: string, args: seq<Expr>)
    | Paren(e: Expr)
    | Cmp(op: CmpOp, l: Expr, r: Expr)
    | Not(e: Expr)
    | And(l: Expr, r: Expr)
    | Or(l: Expr, r: Expr)

  // ---- meaning ----

  function PathParts(segs: seq<Seg>): seq<string> {
    if segs == [] then [] else [PathPart(segs[0])] + PathParts(segs[1..])
  }

  function PathPart(seg: Seg): string {
    match seg
    case Prop(x) => x
    case At(i) => "[" + i + "]"
  }

  /** The value of a tree, or `None` when some part of it errs: every part is evaluated, nothing short-circuits. */
  function Denote(pr: Prims, c: EvalContext, e: Expr): Option<Value>
    decreases e, 1
  {
    match e
    case StrLit(s) => Some(Str(s))
    case NumLit(n) => (match pr.parseFloat(n) case Some(f) => Some(Num(f)) case None => None)
    case BoolLit(b) => Some(Bool(b))
    case NullLit => Some(Null)
    case Path(h, segs) => (match Lookup(pr, c, [h] + PathParts(segs)) case Some(v) => Some(v) case None => Some(Null))
    case Call(f, args) =>
      (match DenoteArgs(pr, c, args) case Some(vs) => CallFunction(pr, c, f, vs) case None => None)
    case Paren(e1) => Denote(pr, c, e1)
    case Cmp(op, l, r) =>
      (match (Denote(pr, c, l), Denote(pr, c, r))
       case (Some(a), Some(b)) => Some(EvalComparison(pr, a, op, b))
       case _ => None)
    case Not(e1) => (match Denote(pr, c, e1) case Some(v) => Some(Bool(!IsTruthy(v))) case None => None)
    case And(l, r) =>
      (match (Denote(pr, c, l), Denote(pr, c, r))
       case (Some(a), Some(b)) => Some(Bool(IsTruthy(a) && IsTruthy(b)))
       case _ => None)
    case Or(l, r) =>
      (match (Denote(pr, c, l), Denote(pr, c, r))
       case (Some(a), Some(b)) => Some(Bool(IsTruthy(a) || IsTruthy(b)))
       case _ => None)
  }

  function DenoteArgs(pr: Prims, c: EvalContext, args: seq<Expr>): (r: Option<seq<Value>>)
    ensures r.Some? ==> |r.value| == |args|
    decreases args, 0
  {
    if args == [] then Some([])
    else
      match (Denote(pr, c, args[0]), DenoteArgs(pr, c, args[1..]))
      case (Some(v), Some(vs)) => Some([v] + vs)
      case _ => None
  }

  lemma {:induction false} DenoteArgsAppend(pr: Prims, c: EvalContext, xs: seq<Expr>, ys: seq<Expr>)
    ensures DenoteArgs(pr, c, xs + ys) ==
            match (DenoteArgs(pr, c, xs), DenoteArgs(pr, c, ys))
            case (Some(a), Some(b)) => Some(a + b)
            case _ => None
  {
    if xs == [] {
      assert xs + ys == ys;
      var r := DenoteArgs(pr, c, ys);
      assert r.Some? ==> [] + r.value == r.value;
    } else {
      assert (xs + ys)[0] == xs[0] && (xs + ys)[1..] == xs[1..] + ys;
      DenoteArgsAppend(pr, c, xs[1..], ys);
      var v, a, b := Denote(pr, c, xs[0]), DenoteArgs(pr, c, xs[1..]), DenoteArgs(pr, c, ys);
      if v.Some? && a.Some? && b.Some? {
        assert [v.value] + (a.value + b.value) == [v.value] + a.value + b.value;
      }
    }
  }

  // ---- spelling ----

  function SegTokens(segs: seq<Seg>): seq<Token> {
    if segs == [] then [] else OneSeg(segs[0]) + SegTokens(segs[1..])
  }

  function OneSeg(seg: Seg): seq<Token> {
    match seg
    case Prop(x) => [Dot, Ident(x)]
    case At(i) => [LBracket, NumTok(i), RBracket]
  }

  function Flatten(e: Expr): seq<Token>
    decreases e, 1
  {
    match e
    case StrLit(s) => [StrTok(s)]
    case NumLit(n) => [NumTok(n)]
    case BoolLit(b) => [BoolTok(b)]
    case NullLit => [NullTok]
    case Path(h, segs) => [Ident(h)] + SegTokens(segs)
    case Call(f, args) => [Ident(f), LParen] + FlattenArgs(args) + [RParen]
    case Paren(e1) => [LParen] + Flatten(e1) + [RParen]
    case Cmp(op, l, r) => Flatten(l) + [CmpTok(op)] + Flatten(r)
    case Not(e1) => [NotTok] + Flatten(e1)
    case And(l, r) => Flatten(l) + [AndTok] + Flatten(r)
    case Or(l, r) => Flatten(l) + [OrTok] + Flatten(r)
  }

  function FlattenArgs(args: seq<Expr>): seq<Token>
    decreases args, 0
  {
    if args == [] then [] else Flatten(args[0]) + FlattenMore(args[1..])
  }

  /** The arguments behind the first, each with its comma. */
  function FlattenMore(args: seq<Expr>): seq<Token>
    decreases args, 0
  {
    if args == [] then [] else [Comma] + Flatten(args[0]) + FlattenMore(args[1..])
  }

  /** A spelling never holds the end marker. */
  lemma {:induction false} FlattenNoEof(e: Expr)
    ensures Eof !in Flatten(e)
    decreases e, 1
  {
    match e
    case Path(_, segs) => SegsNoEof(segs);
    case Call(_, args) => ArgsNoEof(args);
    case Paren(e1) => FlattenNoEof(e1);
    case Not(e1) => FlattenNoEof(e1);
    case Cmp(_, l, r) => FlattenNoEof(l); FlattenNoEof(r);
    case And(l, r) => FlattenNoEof(l); FlattenNoEof(r);
    case Or(l, r) => FlattenNoEof(l); FlattenNoEof(r);
    case _ =>
  }

  lemma {:induction false} ArgsNoEof(args: seq<Expr>)
    ensures Eof !in FlattenArgs(args) && Eof !in FlattenMore(args)
    decreases args, 0
  {
    if args != [] {
      FlattenNoEof(args[0]);
      ArgsNoEof(args[1..]);
    }
  }

  lemma {:induction false} SegsNoEof(segs: seq<Seg>)
    ensures Eof !in SegTokens(segs)
  {
    if segs != [] {
      SegsNoEof(segs[1..]);
    }
  }

  // ---- binding strength ----

  /** From loosest to tightest: `||`, `&&`, `!`, comparison, primary. */
  function Level(e: Expr): nat {
    match e
    case Or(_, _) => 0
    case And(_, _) => 1
    case Not(_) => 2
    case Cmp(_, _, _) => 3
    case _ => 4
  }

  /** The tree is one the grammar derives without further parentheses: `!` binds looser than a comparison,
      comparisons do not chain, `&&` and `||` lean left. */
  predicate Fits(e: Expr)
    decreases e, 1
  {
    match e
    case Call(_, args) => FitsAll(args)
    case Paren(e1) => Fits(e1)
    case Cmp(_, l, r) => Fits(l) && Fits(r) && Level(l) == 4 && Level(r) == 4
    case Not(e1) => Fits(e1) && Level(e1) >= 2
    case And(l, r) => Fits(l) && Fits(r) && Level(l) >= 1 && Level(r) >= 2
    case Or(l, r) => Fits(l) && Fits(r) && Level(r) >= 1
    case _ => true
  }

  predicate FitsAll(args: seq<Expr>)
    decreases args, 0
  {
    args == [] || (Fits(args[0]) && FitsAll(args[1..]))
  }

  /** The tree in parentheses if it binds looser than its place asks for. */
  function Wrap(e: Expr, level: nat): Expr {
    if Level(e) < level then Paren(e) else e
  }

  /** Parentheses added where the grammar needs them, and nowhere else. */
  function Minimal(e: Expr): Expr
    decreases e, 1
  {
    match e
    case Call(f, args) => Call(f, MinimalAll(args))
    case Paren(e1) => Paren(Minimal(e1))
    case Cmp(op, l, r) => Cmp(op, Wrap(Minimal(l), 4), Wrap(Minimal(r), 4))
    case Not(e1) => Not(Wrap(Minimal(e1), 2))
    case And(l, r) => And(Wrap(Minimal(l), 1), Wrap(Minimal(r), 2))
    case Or(l, r) => Or(Minimal(l), Wrap(Minimal(r), 1))
    case _ => e
  }

  function MinimalAll(args: seq<Expr>): (r: seq<Expr>)
    ensures |r| == |args|
    decreases args, 0
  {
    if args == [] then [] else [Minimal(args[0])] + MinimalAll(args[1..])
  }

  /** Adding parentheses makes every tree fit the grammar, and a tree that fits stays as it is. */
  lemma {:induction false} MinimalFits(e: Expr)
    ensures Fits(Minimal(e)) && Level(Minimal(e)) == Level(e)
    ensures Fits(e) ==> Minimal(e) == e
    decreases e, 1
  {
    match e
    case Call(f, args) => MinimalAllFits(args);
    case Paren(e1) => MinimalFits(e1);
    case Not(e1) => MinimalFits(e1);
    case Cmp(_, l, r) => MinimalFits(l); MinimalFits(r);
    case And(l, r) => MinimalFits(l); MinimalFits(r);
    case Or(l, r) => MinimalFits(l); MinimalFits(r);
    case _ =>
  }

  lemma {:induction false} MinimalAllFits(args: seq<Expr>)
    ensures FitsAll(MinimalAll(args))
    ensures FitsAll(args) ==> MinimalAll(args) == args
    decreases args, 0
  {
    if args != [] {
      MinimalFits(args[0]);
      MinimalAllFits(args[1..]);
    }
  }

  lemma WrapDenote(pr: Prims, c: EvalContext, e: Expr, level: nat)
    ensures Denote(pr, c, Wrap(e, level)) == Denote(pr, c, e)
  {
  }

  /** Adding parentheses keeps the meaning. */
  lemma {:induction false} MinimalDenote(pr: Prims, c: EvalContext, e: Expr)
    ensures Denote(pr, c, Minimal(e)) == Denote(pr, c, e)
    decreases e, 1
  {
    match e
    case Call(f, args) => MinimalAllDenote(pr, c, args);
    case Paren(e1) => MinimalDenote(pr, c, e1);
    case Not(e1) =>
      MinimalDenote(pr, c, e1);
      WrapDenote(pr, c, Minimal(e1), 2);
    case Cmp(_, l, r) =>
      MinimalDenote(pr, c, l); MinimalDenote(pr, c, r);
      WrapDenote(pr, c, Minimal(l), 4); WrapDenote(pr, c, Minimal(r), 4);
    case And(l, r) =>
      MinimalDenote(pr, c, l); MinimalDenote(pr, c, r);
      WrapDenote(pr, c, Minimal(l), 1); WrapDenote(pr, c, Minimal(r), 2);
    case Or(l, r) =>
      MinimalDenote(pr, c, l); MinimalDenote(pr, c, r);
      WrapDenote(pr, c, Minimal(r), 1);
    case _ =>
  }

  lemma {:induction false} MinimalAllDenote(pr: Prims, c: EvalContext, args: seq<Expr>)
    ensures DenoteArgs(pr, c, MinimalAll(args)) == DenoteArgs(pr, c, args)
    decreases args, 0
  {
    if args != [] {
      MinimalDenote(pr, c, args[0]);
      MinimalAllDenote(pr, c, args[1..]);
    }
  }
}

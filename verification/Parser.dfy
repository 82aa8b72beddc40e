/** The evaluating parser: one pass over the tokens that computes values as it goes. It is proved to agree with
    reading a tree first and then taking the tree's meaning. */
module Parser {
  import opened Text
  import opened Values
  import opened Context
  import opened Builtins
  import opened Lexer
  import opened Grammar
  import opened Syntax

  /** What was evaluated is what the tree read from the same place means; both fail together. */
  ghost predicate Agrees(pr: Prims, c: EvalContext, t: Parsed<Expr>, v: Option<Value>, pos: nat) {
    match t
    case Fail => v.None?
    case Got(e, q) => v == Denote(pr, c, e) && (v.Some? ==> pos == q)
  }

  /** The trees `es` followed by what is read next. */
  function Prepend<T>(es: seq<T>, t: Parsed<seq<T>>): Parsed<seq<T>> {
    match t
    case Fail => Fail
    case Got(fs, q) => Got(es + fs, q)
  }

  lemma PrependNil<T>(t: Parsed<seq<T>>)
    ensures Prepend([], t) == t
  {
    if t.Got? { assert [] + t.val == t.val; }
  }

  lemma DenoteOne(pr: Prims, c: EvalContext, e: Expr)
    ensures DenoteArgs(pr, c, [e]) == match Denote(pr, c, e) case Some(v) => Some([v]) case None => None
  {
    assert [e][1..] == [] && DenoteArgs(pr, c, []) == Some([]);
    var v := Denote(pr, c, e);
    if v.Some? { assert [v.value] + [] == [v.value]; }
  }

  // An operand that errs makes every tree it ends up in err.

  lemma {:induction false} OrMoreErr(pr: Prims, c: EvalContext, ts: seq<Token>, p: nat, q: nat, l: Expr)
    requires Spelled(ts, p, q, l, 0) && Denote(pr, c, l).None?
    ensures var t := OrMore(ts, p, q, l); t.Got? ==> Denote(pr, c, t.val).None?
    decreases |ts| - q
  {
    if Peek(ts, q) == OrTok {
      var t := AndTree(ts, q + 1);
      if t.Got? {
        BinarySpelled(ts, p, q, t.next, l, t.val);
        OrMoreErr(pr, c, ts, p, t.next, Or(l, t.val));
      }
    }
  }

  lemma {:induction false} AndMoreErr(pr: Prims, c: EvalContext, ts: seq<Token>, p: nat, q: nat, l: Expr)
    requires Spelled(ts, p, q, l, 1) && Denote(pr, c, l).None?
    ensures var t := AndMore(ts, p, q, l); t.Got? ==> Denote(pr, c, t.val).None?
    decreases |ts| - q
  {
    if Peek(ts, q) == AndTok {
      var t := NotTree(ts, q + 1);
      if t.Got? {
        BinarySpelled(ts, p, q, t.next, l, t.val);
        AndMoreErr(pr, c, ts, p, t.next, And(l, t.val));
      }
    }
  }

  lemma OrBegin(pr: Prims, c: EvalContext, ts: seq<Token>, p: nat)
    ensures var t := AndTree(ts, p);
            if t.Fail? then OrTree(ts, p).Fail?
            else Spelled(ts, p, t.next, t.val, 0) && OrTree(ts, p) == OrMore(ts, p, t.next, t.val)
    ensures var t := AndTree(ts, p);
            t.Got? && Denote(pr, c, t.val).None? && OrTree(ts, p).Got? ==> Denote(pr, c, OrTree(ts, p).val).None?
  {
    var t := AndTree(ts, p);
    if t.Got? && Denote(pr, c, t.val).None? {
      OrMoreErr(pr, c, ts, p, t.next, t.val);
    }
  }

  /** One more operand: the tree grows by it, and errs if the operand does. */
  lemma OrStep(pr: Prims, c: EvalContext, ts: seq<Token>, p: nat, q: nat, l: Expr)
    requires Spelled(ts, p, q, l, 0) && Peek(ts, q) == OrTok
    ensures AndTree(ts, q + 1).Fail? ==> OrMore(ts, p, q, l).Fail?
    ensures var t := AndTree(ts, q + 1);
            t.Got? && Denote(pr, c, l).Some? && Denote(pr, c, t.val).Some? ==>
              Denote(pr, c, Or(l, t.val)) ==
              Some(Bool(IsTruthy(Denote(pr, c, l).value) || IsTruthy(Denote(pr, c, t.val).value)))
    ensures var t := AndTree(ts, q + 1);
            t.Got? ==>
              && Spelled(ts, p, t.next, Or(l, t.val), 0)
              && OrMore(ts, p, q, l) == OrMore(ts, p, t.next, Or(l, t.val))
              && (Denote(pr, c, t.val).None? && OrMore(ts, p, q, l).Got? ==>
                    Denote(pr, c, OrMore(ts, p, q, l).val).None?)
  {
    hide AndTree, Slice;
    var t := AndTree(ts, q + 1);
    if t.Got? {
      BinarySpelled(ts, p, q, t.next, l, t.val);
      assert Flatten(Or(l, t.val)) == Flatten(l) + [ts[q]] + Flatten(t.val);
      if Denote(pr, c, t.val).None? {
        OrMoreErr(pr, c, ts, p, t.next, Or(l, t.val));
      }
    }
  }

  lemma AndBegin(pr: Prims, c: EvalContext, ts: seq<Token>, p: nat)
    ensures var t := NotTree(ts, p);
            if t.Fail? then AndTree(ts, p).Fail?
            else Spelled(ts, p, t.next, t.val, 1) && AndTree(ts, p) == AndMore(ts, p, t.next, t.val)
    ensures var t := NotTree(ts, p);
            t.Got? && Denote(pr, c, t.val).None? && AndTree(ts, p).Got? ==> Denote(pr, c, AndTree(ts, p).val).None?
  {
    var t := NotTree(ts, p);
    if t.Got? && Denote(pr, c, t.val).None? {
      AndMoreErr(pr, c, ts, p, t.next, t.val);
    }
  }

  lemma AndEnd(ts: seq<Token>, p: nat, q: nat, l: Expr)
    requires Spelled(ts, p, q, l, 1) && Peek(ts, q) != AndTok
    ensures AndMore(ts, p, q, l) == Got(l, q)
  {
  }

  /** One more operand: the tree grows by it, and errs if the operand does. */
  lemma AndStep(pr: Prims, c: EvalContext, ts: seq<Token>, p: nat, q: nat, l: Expr)
    requires Spelled(ts, p, q, l, 1) && Peek(ts, q) == AndTok
    ensures NotTree(ts, q + 1).Fail? ==> AndMore(ts, p, q, l).Fail?
    ensures var t := NotTree(ts, q + 1);
            t.Got? && Denote(pr, c, l).Some? && Denote(pr, c, t.val).Some? ==>
              Denote(pr, c, And(l, t.val)) ==
              Some(Bool(IsTruthy(Denote(pr, c, l).value) && IsTruthy(Denote(pr, c, t.val).value)))
    ensures var t := NotTree(ts, q + 1);
            t.Got? ==>
              && Spelled(ts, p, t.next, And(l, t.val), 1)
              && AndMore(ts, p, q, l) == AndMore(ts, p, t.next, And(l, t.val))
              && (Denote(pr, c, t.val).None? && AndMore(ts, p, q, l).Got? ==>
                    Denote(pr, c, AndMore(ts, p, q, l).val).None?)
  {
    hide NotTree, Slice;
    var t := NotTree(ts, q + 1);
    if t.Got? {
      BinarySpelled(ts, p, q, t.next, l, t.val);
      assert Flatten(And(l, t.val)) == Flatten(l) + [ts[q]] + Flatten(t.val);
      if Denote(pr, c, t.val).None? {
        AndMoreErr(pr, c, ts, p, t.next, And(l, t.val));
      }
    }
  }

  lemma {:induction false} PathPartsSnoc(segs: seq<Seg>, s: Seg)
    ensures PathParts(segs + [s]) == PathParts(segs) + [PathPart(s)]
  {
    if segs != [] {
      assert (segs + [s])[1..] == segs[1..] + [s];
      PathPartsSnoc(segs[1..], s);
    } else {
      assert segs + [s] == [s];
    }
  }

  ghost function FirstEof(ts: seq<Token>): (n: nat)
    ensures n <= |ts| && Eof !in ts[..n] && (n < |ts| ==> ts[n] == Eof)
  {
    if ts == [] || ts[0] == Eof then 0 else 1 + FirstEof(ts[1..])
  }

  class ExprParser {
    const tokens: seq<Token>
    var pos: nat
    const ctx: EvalContext
    const prims: Prims

    constructor (tokens: seq<Token>, ctx: EvalContext, prims: Prims)
      ensures Valid() && this.tokens == tokens && this.ctx == ctx && this.prims == prims && pos == 0
      ensures Eof !in tokens[..limit]
    {
      this.tokens, this.ctx, this.prims := tokens, ctx, prims;
      this.limit := FirstEof(tokens);
      pos := 0;
    }

    /** The position of the first end marker, where the parser has to stop. */
    ghost const limit: nat

    /** No end marker has been passed. */
    ghost predicate Valid()
      reads this`pos
    {
      pos <= limit <= |tokens| && (limit < |tokens| ==> tokens[limit] == Eof)
    }

    function Cur(): Token
      reads this`pos
    {
      Peek(tokens, pos)
    }

    method Consume() returns (t: Token)
      requires Valid() && Cur() != Eof
      modifies this`pos
      ensures Valid() && t == tokens[old(pos)] && pos == old(pos) + 1
    {
      t := Cur();
      pos := pos + 1;
    }

    method ParseOr() returns (v: Option<Value>)
      requires Valid()
      modifies this`pos
      ensures Valid() && pos >= old(pos) && Agrees(prims, ctx, OrTree(tokens, old(pos)), v, pos)
      decreases |tokens| - pos, 5
    {
      hide Denote, OrTree, OrMore, AndTree, Slice, IsTruthy;
      ghost var p := pos;
      v := ParseAnd();
      OrBegin(prims, ctx, tokens, p);
      if v.None? { return; }
      ghost var l := AndTree(tokens, p).val;
      while Cur() == OrTok
        invariant Valid() && pos >= p && Spelled(tokens, p, pos, l, 0)
        invariant OrTree(tokens, p) == OrMore(tokens, p, pos, l)
        invariant v.Some? && v == Denote(prims, ctx, l)
        decreases |tokens| - pos
      {
        ghost var q := pos;
        var _ := Consume();
        var r := ParseAnd();
        OrStep(prims, ctx, tokens, p, q, l);
        if r.None? { return None; }
        l := Or(l, AndTree(tokens, q + 1).val);
        v := Some(Bool(IsTruthy(v.value) || IsTruthy(r.value)));
      }
      OrMoreStops(tokens, p, pos, l);
    }

    method ParseAnd() returns (v: Option<Value>)
      requires Valid()
      modifies this`pos
      ensures Valid() && pos >= old(pos) && Agrees(prims, ctx, AndTree(tokens, old(pos)), v, pos)
      decreases |tokens| - pos, 4
    {
      hide Denote, AndTree, AndMore, NotTree, Slice, IsTruthy;
      ghost var p := pos;
      v := ParseNot();
      AndBegin(prims, ctx, tokens, p);
      if v.None? { return; }
      ghost var l := NotTree(tokens, p).val;
      while Cur() == AndTok
        invariant Valid() && pos >= p && Spelled(tokens, p, pos, l, 1)
        invariant AndTree(tokens, p) == AndMore(tokens, p, pos, l)
        invariant v.Some? && v == Denote(prims, ctx, l)
        decreases |tokens| - pos
      {
        ghost var q := pos;
        var _ := Consume();
        var r := ParseNot();
        AndStep(prims, ctx, tokens, p, q, l);
        if r.None? { return None; }
        l := And(l, NotTree(tokens, q + 1).val);
        v := Some(Bool(IsTruthy(v.value) && IsTruthy(r.value)));
      }
      AndEnd(tokens, p, pos, l);
    }

    method ParseNot() returns (v: Option<Value>)
      requires Valid()
      modifies this`pos
      ensures Valid() && pos >= old(pos) && Agrees(prims, ctx, NotTree(tokens, old(pos)), v, pos)
      decreases |tokens| - pos, 3
    {
      if Cur() == NotTok {
        var _ := Consume();
        var r := ParseNot();
        v := if r.None? then None else Some(Bool(!IsTruthy(r.value)));
      } else {
        v := ParseComparison();
      }
    }

    method ParseComparison() returns (v: Option<Value>)
      requires Valid()
      modifies this`pos
      ensures Valid() && pos >= old(pos) && Agrees(prims, ctx, CmpTree(tokens, old(pos)), v, pos)
      decreases |tokens| - pos, 2
    {
      hide PrimaryTree, Slice, EvalComparison;
      v := ParsePrimary();
      if v.Some? && Cur().CmpTok? {
        var op := Consume();
        var r := ParsePrimary();
        v := if r.None? then None else Some(EvalComparison(prims, v.value, op.op, r.value));
      }
    }

    method ParsePrimary() returns (v: Option<Value>)
      requires Valid()
      modifies this`pos
      ensures Valid() && pos >= old(pos) && Agrees(prims, ctx, PrimaryTree(tokens, old(pos)), v, pos)
      ensures v.Some? ==> pos > old(pos)
      decreases |tokens| - pos, 1
    {
      hide OrTree, IdentTree, Slice;
      var t := Cur();
      match t
      case LParen =>
        var _ := Consume();
        v := ParseOr();
        if v.Some? {
          if Cur() != RParen { return None; }
          var _ := Consume();
        }
      case StrTok(s) =>
        var _ := Consume();
        v := Some(Str(s));
      case NumTok(n) =>
        var _ := Consume();
        var f := prims.parseFloat(n);
        v := if f.None? then None else Some(Num(f.value));
      case BoolTok(b) =>
        var _ := Consume();
        v := Some(Bool(b));
      case NullTok =>
        var _ := Consume();
        v := Some(Null);
      case Ident(x) =>
        v := ParseIdentOrCall();
      case _ =>
        v := None;
    }

    method ParseIdentOrCall() returns (v: Option<Value>)
      requires Valid() && pos < |tokens| && tokens[pos].Ident?
      modifies this`pos
      ensures Valid() && pos >= old(pos) && Agrees(prims, ctx, IdentTree(tokens, old(pos), tokens[old(pos)].s), v, pos)
      decreases |tokens| - pos, 0
    {
      hide ArgsTree, SegsTree, Slice, DenoteArgs, CallFunction, Lookup;
      var name := Consume();
      if Cur() == LParen {
        var _ := Consume();
        var args := ParseArgs();
        if args.None? || Cur() != RParen { return None; }
        var _ := Consume();
        v := CallFunction(prims, ctx, name.s, args.value);
      } else {
        var parts := ParseSegs(name.s);
        if parts.None? { return None; }
        var r := Lookup(prims, ctx, parts.value);
        v := if r.None? then Some(Null) else r;
      }
    }

    method ParseArgs() returns (args: Option<seq<Value>>)
      requires Valid()
      modifies this`pos
      ensures Valid() && pos >= old(pos)
      ensures match ArgsTree(tokens, old(pos))
              case Fail => args.None?
              case Got(es, q) => args == DenoteArgs(prims, ctx, es) && (args.Some? ==> pos == q)
      decreases |tokens| - pos, 6
    {
      hide DenoteArgs, ArgsTree, MoreArgs, OrTree, Denote, Slice;
      ghost var p := pos;
      ghost var es: seq<Expr> := [];
      var vs: seq<Value> := [];
      ArgsBegin(prims, ctx, tokens, p);
      while Cur() != RParen && Cur() != Eof
        invariant Valid() && pos >= p && |es| == |vs|
        invariant DenoteArgs(prims, ctx, es) == Some(vs)
        invariant ArgsTree(tokens, p) == Prepend(es, ArgsRest(tokens, es, pos))
        decreases |tokens| - pos
      {
        ghost var here := pos;
        ArgsStep(prims, ctx, tokens, es, vs, here);
        if |vs| > 0 {
          if Cur() != Comma { return None; }
          var _ := Consume();
        }
        ghost var t := OrTree(tokens, pos);
        var v := ParseOr();
        if v.None? { return None; }
        es, vs := es + [t.val], vs + [v.value];
      }
      ArgsEnd(tokens, es, pos);
      args := Some(vs);
    }

    method ParseSegs(name: string) returns (parts: Option<seq<string>>)
      requires Valid()
      modifies this`pos
      ensures Valid() && pos >= old(pos)
      ensures match SegsTree(tokens, old(pos))
              case Fail => parts.None?
              case Got(segs, q) => parts == Some([name] + PathParts(segs)) && pos == q
    {
      ghost var p := pos;
      hide SegTree, PathParts, Slice;
      ghost var segs: seq<Seg> := [];
      var names := [name];
      PrependNil(SegsTree(tokens, p));
      SegsNil(name);
      while Cur() == Dot || Cur() == LBracket
        invariant Valid() && pos >= p
        invariant names == [name] + PathParts(segs)
        invariant SegsTree(tokens, p) == Prepend(segs, SegsTree(tokens, pos))
        decreases |tokens| - pos
      {
        ghost var t := SegTree(tokens, pos);
        var part := ParseSeg();
        if part.None? { return None; }
        SegsStep(segs, t.val, SegsTree(tokens, pos));
        segs, names := segs + [t.val], names + [part.value];
      }
      assert segs + [] == segs;
      parts := Some(names);
    }

    method ParseSeg() returns (part: Option<string>)
      requires Valid() && Cur() in {Dot, LBracket}
      modifies this`pos
      ensures Valid() && pos > old(pos)
      ensures match SegTree(tokens, old(pos))
              case Fail => part.None?
              case Got(s, q) => part == Some(PathPart(s)) && pos == q
    {
      var t := Consume();
      if t == Dot {
        if !Cur().Ident? { return None; }
        var x := Consume();
        part := Some(x.s);
      } else {
        if !Cur().NumTok? { return None; }
        var n := Consume();
        if Cur() != RBracket { return None; }
        var _ := Consume();
        part := Some("[" + n.s + "]");
      }
    }
  }

  lemma SegsNil(name: string)
    ensures [name] == [name] + PathParts([])
  {
  }

  lemma SegsStep(segs: seq<Seg>, s: Seg, rest: Parsed<seq<Seg>>)
    ensures Prepend(segs, Prepend([s], rest)) == Prepend(segs + [s], rest)
    ensures PathParts(segs + [s]) == PathParts(segs) + [PathPart(s)]
  {
    PathPartsSnoc(segs, s);
    if rest.Got? {
      assert segs + ([s] + rest.val) == segs + [s] + rest.val;
    }
  }

  // ---- the argument loop ----

  /** What is still to be read when the arguments `es` have been taken in. */
  function ArgsRest(ts: seq<Token>, es: seq<Expr>, p: nat): Parsed<seq<Expr>>
    requires p <= |ts|
  {
    if es == [] then ArgsTree(ts, p) else MoreArgs(ts, p)
  }

  lemma ArgsBegin(pr: Prims, c: EvalContext, ts: seq<Token>, p: nat)
    requires p <= |ts|
    ensures ArgsTree(ts, p) == Prepend([], ArgsRest(ts, [], p)) && DenoteArgs(pr, c, []) == Some([])
  {
    PrependNil(ArgsTree(ts, p));
  }

  lemma ArgsEnd(ts: seq<Token>, es: seq<Expr>, p: nat)
    requires p <= |ts| && Peek(ts, p) in {RParen, Eof}
    ensures Prepend(es, ArgsRest(ts, es, p)) == Got(es, p)
  {
    assert es + [] == es;
  }

  /** One more argument, behind a comma unless it is the first: the list grows by it, and errs if it does. */
  lemma ArgsStep(pr: Prims, c: EvalContext, ts: seq<Token>, es: seq<Expr>, vs: seq<Value>, p: nat)
    requires p <= |ts| && Peek(ts, p) !in {RParen, Eof} && DenoteArgs(pr, c, es) == Some(vs)
    ensures es != [] && Peek(ts, p) != Comma ==> ArgsRest(ts, es, p).Fail?
    ensures es == [] || Peek(ts, p) == Comma ==>
              var t := OrTree(ts, if es == [] then p else p + 1);
              var all := Prepend(es, ArgsRest(ts, es, p));
              && (t.Fail? ==> all.Fail?)
              && (t.Got? ==> t.next <= |ts| && all == Prepend(es + [t.val], ArgsRest(ts, es + [t.val], t.next)))
              && (t.Got? && Denote(pr, c, t.val).None? && all.Got? ==> DenoteArgs(pr, c, all.val).None?)
              && (t.Got? && Denote(pr, c, t.val).Some? ==>
                    DenoteArgs(pr, c, es + [t.val]) == Some(vs + [Denote(pr, c, t.val).value]))
  {
    if es == [] || Peek(ts, p) == Comma {
      var t := OrTree(ts, if es == [] then p else p + 1);
      if t.Got? {
        ArgsErr(pr, c, es, t.val, MoreArgs(ts, t.next));
        DenoteArgsAppend(pr, c, es, [t.val]);
        DenoteOne(pr, c, t.val);
      }
    }
  }

  /** One argument that errs, or one that does not, with the arguments around it. */
  lemma ArgsErr(pr: Prims, c: EvalContext, es: seq<Expr>, e: Expr, rest: Parsed<seq<Expr>>)
    ensures Prepend(es, Prepend([e], rest)) == Prepend(es + [e], rest)
    ensures rest.Got? && Denote(pr, c, e).None? ==> DenoteArgs(pr, c, es + [e] + rest.val).None?
  {
    if rest.Got? {
      assert es + ([e] + rest.val) == es + [e] + rest.val;
      DenoteArgsAppend(pr, c, es, [e] + rest.val);
    }
  }
}

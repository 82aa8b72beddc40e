/** Evaluating expression text: a bare expression, and a condition with or without its `${{ }}` wrapper. */
module Evaluator {
  import opened Text
  import opened Values
  import opened Context
  import opened Builtins
  import opened Lexer
  import opened Grammar
  import opened Syntax
  import opened Parser

  /** The meaning of the one tree the tokens spell; an error if they spell none. */
  function EvalText(pr: Prims, c: EvalContext, s: string): Option<Value> {
    var ts := Lex(s);
    match OrTree(ts, 0)
    case Fail => None
    case Got(e, q) => if Peek(ts, q) == Eof then Denote(pr, c, e) else None
  }

  /** Tokenize, parse and evaluate in one pass, and insist that all tokens were used. On success the parser
      stands on the end marker, which is the last token. */
  method Eval(pr: Prims, c: EvalContext, s: string) returns (v: Option<Value>, ghost stopped: nat)
    ensures v == EvalText(pr, c, s)
    ensures v.Some? ==> stopped == |Lex(s)| - 1
  {
    hide Lex, Denote, OrTree;
    var toks := Tokenize(s);
    LexShape(s);
    var p := new ExprParser(toks, c, pr);
    assert p.limit == |toks| - 1 by { EofIsLast(toks, p.limit); }
    v := p.ParseOr();
    stopped := p.pos;
    if v.Some? && p.pos < |p.tokens| && p.tokens[p.pos] != Eof {
      v := None;
    }
  }

  lemma EofIsLast(ts: seq<Token>, limit: nat)
    requires |ts| >= 1 && ts[|ts| - 1] == Eof && forall k | 0 <= k < |ts| - 1 :: Writable(ts[k])
    requires limit <= |ts| && Eof !in ts[..limit] && (limit < |ts| ==> ts[limit] == Eof)
    ensures limit == |ts| - 1
  {
  }

  /** Evaluation succeeds with a value exactly when the text spells a tree of the grammar with that value. */
  lemma EvalIffDenotes(pr: Prims, c: EvalContext, s: string, v: Value)
    ensures EvalText(pr, c, s) == Some(v) <==>
            exists e :: Fits(e) && Lex(s) == Flatten(e) + [Eof] && Denote(pr, c, e) == Some(v)
  {
    hide Lex, Denote, OrTree, Flatten, Fits;
    var ts := Lex(s);
    LexShape(s);
    var t := OrTree(ts, 0);
    if EvalText(pr, c, s) == Some(v) {
      FlattenNoEof(t.val);
      ReadIffSpelled(ts, t.val);
    }
    forall e | Fits(e) && ts == Flatten(e) + [Eof] && Denote(pr, c, e) == Some(v)
      ensures EvalText(pr, c, s) == Some(v)
    {
      ReadIffSpelled(ts, e);
    }
  }

  lemma EmptyErrs(pr: Prims, c: EvalContext)
    ensures EvalText(pr, c, "") == None
  {
    if EvalText(pr, c, "").Some? {
      EvalIffDenotes(pr, c, "", EvalText(pr, c, "").value);
      var e :| Fits(e) && Lex("") == Flatten(e) + [Eof];
      FirstToken(e);
    }
  }

  /** Round trip at the level of text: any tree, written with the parentheses it needs and with any well-spaced
      layout, evaluates to the tree's meaning, errors included. */
  lemma EvalWritten(pr: Prims, c: EvalContext, e: Expr, ps: seq<Piece>, tail: string)
    requires WellSpaced(ps, tail) && Tokens(ps) == Flatten(Minimal(e))
    ensures EvalText(pr, c, Write(ps, tail)) == Denote(pr, c, e)
  {
    hide Lex, Denote, OrTree, Flatten, Fits, Minimal, Write, WellSpaced, Tokens;
    var s := Write(ps, tail);
    LexWritten(ps, tail);
    MinimalFits(e);
    MinimalDenote(pr, c, e);
    ReadIffSpelled(Lex(s), Minimal(e));
  }

  /** Comparisons do not chain: a text that goes on with a second comparison operator is an error, whatever follows. */
  lemma ChainedComparisonFails(pr: Prims, c: EvalContext, s: string, x: Expr, op: CmpOp, y: Expr, op': CmpOp, rest: seq<Token>)
    requires Fits(x) && Fits(y) && Level(x) == 4 && Level(y) == 4
    requires Lex(s) == Flatten(x) + [CmpTok(op)] + Flatten(y) + ([CmpTok(op')] + rest)
    ensures EvalText(pr, c, s) == None
  {
    hide Lex, Denote, OrTree, Flatten, Fits, Level;
    var ts := Lex(s);
    var front := Flatten(x) + [CmpTok(op)] + Flatten(y);
    var q := |front|;
    assert Slice(ts, 0, q, front);
    var m := BinarySplit(ts, 0, q, x, CmpTok(op), y);
    assert ts[q] == CmpTok(op');
    ChainStops(ts, 0, m, q, x, y);
  }

  /** A function call without arguments, written without spaces. */
  lemma EvalNullary(pr: Prims, c: EvalContext, f: string)
    requires Writable(Ident(f))
    ensures EvalText(pr, c, f + "()") == CallFunction(pr, c, f, [])
  {
    hide CallFunction, Writable, EvalText;
    var e := Call(f, []);
    var p2 := [Piece("", RParen)];
    var p1 := [Piece("", LParen)] + p2;
    var ps := [Piece("", Ident(f))] + p1;
    assert Write([], "") == "" && Tokens([]) == [] && p2 == p2 + [];
    PieceCons(Piece("", RParen), [], "");
    PieceCons(Piece("", LParen), p2, "");
    PieceCons(Piece("", Ident(f)), p1, "");
    assert Write(ps, "") == f + "()";
    assert Flatten(Minimal(e)) == [Ident(f), LParen, RParen] == Tokens(ps);
    SymbolsWritable();
    EvalWritten(pr, c, e, ps, "");
  }

  lemma SymbolsWritable()
    ensures Writable(LParen) && Writable(RParen)
  {
  }

  // ---- conditions ----

  /** The expression inside a condition: outer white space, an optional wrapper, and white space inside it, removed. */
  function Unwrap(s: string): string {
    var t := TrimSpace(s);
    if HasPrefix(t, "${{") && HasSuffix(t, "}}") then
      assert t[2] == '{' && t[|t| - 2] == '}' && t[|t| - 1] == '}' && t[0] == '$' && t[1] == '{';
      TrimSpace(t[3..|t| - 2])
    else t
  }

  function EvalBoolText(pr: Prims, c: EvalContext, s: string): Option<bool> {
    match EvalText(pr, c, Unwrap(s))
    case Some(v) => Some(IsTruthy(v))
    case None => None
  }

  method EvalBool(pr: Prims, c: EvalContext, s: string) returns (r: Option<bool>)
    ensures r == EvalBoolText(pr, c, s)
  {
    var v, _ := Eval(pr, c, Unwrap(s));
    r := match v case Some(x) => Some(IsTruthy(x)) case None => None;
  }

  /** A text with no white space at its ends, and not all in one wrapper. */
  predicate Bare(t: string) {
    t != "" && !IsSpace(t[0]) && !IsSpace(t[|t| - 1]) && !(HasPrefix(t, "${{") && HasSuffix(t, "}}"))
  }

  /** The wrapper, and white space inside and around it, make no difference to a condition. */
  lemma UnwrapPadded(a: string, b: string, t: string, b': string, a': string)
    requires Blank(a) && Blank(b) && Blank(b') && Blank(a') && Bare(t)
    ensures Unwrap(a + t + a') == t
    ensures Unwrap(a + ("${{" + b + t + b' + "}}") + a') == t
  {
    hide TrimSpace, IsSpace, HasPrefix, HasSuffix;
    TrimPadded(a, t, a');
    var w := "${{" + b + t + b' + "}}";
    assert w[0] == '$' && w[|w| - 1] == '}' && !IsSpace('$') && !IsSpace('}') by { NotSpaces(); }
    TrimPadded(a, w, a');
    WrapperShape(b + t + b');
    assert "${{" + (b + t + b') + "}}" == w;
    TrimPadded(b, t, b');
  }

  lemma WrapperShape(x: string)
    ensures var w := "${{" + x + "}}"; HasPrefix(w, "${{") && HasSuffix(w, "}}") && w[3..|w| - 2] == x
  {
    var w := "${{" + x + "}}";
    assert w[..3] == "${{" && w[|w| - 2..] == "}}";
  }

  lemma NotSpaces()
    ensures !IsSpace('$') && !IsSpace('}')
  {
  }

  /** The four status checks, bare or wrapped and with any padding, decide by the job's status and the cancelled flag. */
  lemma StatusChecks(pr: Prims, c: EvalContext, s: string, a: string, b: string, b': string, a': string)
    requires Blank(a) && Blank(b) && Blank(b') && Blank(a')
    requires s in {"success()", "failure()", "cancelled()", "always()"}
    ensures var r := match s
                     case "success()" => c.jobStatus == Success || c.jobStatus == Pending
                     case "failure()" => c.jobStatus == Failure
                     case "cancelled()" => c.cancelled
                     case _ => true;
            && EvalBoolText(pr, c, a + s + a') == Some(r)
            && EvalBoolText(pr, c, a + ("${{" + b + s + b' + "}}") + a') == Some(r)
  {
    hide EvalText, Unwrap, Blank, CallFunction, Bare, IsTruthy;
    BareChecks(s);
    UnwrapPadded(a, b, s, b', a');
    var f := if s == "success()" then "success" else if s == "failure()" then "failure"
             else if s == "cancelled()" then "cancelled" else "always";
    assert s == f + "()";
    NamesWritable(f);
    EvalNullary(pr, c, f);
    CheckValues(pr, c, f);
  }

  lemma BareChecks(s: string)
    requires s in {"success()", "failure()", "cancelled()", "always()"}
    ensures Bare(s)
  {
  }

  lemma CheckValues(pr: Prims, c: EvalContext, f: string)
    requires f in {"success", "failure", "cancelled", "always"}
    ensures var r := match f
                     case "success" => c.jobStatus == Success || c.jobStatus == Pending
                     case "failure" => c.jobStatus == Failure
                     case "cancelled" => c.cancelled
                     case _ => true;
            match CallFunction(pr, c, f, []) case Some(v) => IsTruthy(v) == r case None => false
  {
  }

  lemma NamesWritable(f: string)
    requires f in {"success", "failure", "cancelled", "always"}
    ensures Writable(Ident(f))
  {
  }
}

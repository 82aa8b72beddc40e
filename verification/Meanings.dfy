/** What composed expression texts evaluate to, in terms of what their parts evaluate to. */
module Meanings {
  import opened Text
  import opened Values
  import opened Context
  import opened Builtins
  import opened Lexer
  import opened Grammar
  import opened Evaluator
  import opened Phrases

  /** The text spells an expression that binds at least as tightly as `level`: 0 `||`, 1 `&&`, 2 `!`, 3 a comparison,
      4 a literal, path, call or parenthesis. */
  ghost predicate Operand(s: string, level: nat) {
    exists e :: Spells(s, e) && Level(e) >= level
  }

  lemma OperandOf(s: string, e: Expr, level: nat)
    requires Spells(s, e) && Level(e) >= level
    ensures Operand(s, level)
  {
  }

  /** Literals mean themselves. */
  lemma LiteralText(pr: Prims, c: EvalContext, w: string, n: string)
    ensures '\'' !in w ==> Operand("'" + w + "'", 4) && EvalText(pr, c, "'" + w + "'") == Some(Str(w))
    ensures IsNumeral(n) && pr.parseFloat(n).Some? ==>
              Operand(n, 4) && EvalText(pr, c, n) == Some(Num(pr.parseFloat(n).value))
    ensures Operand("true", 4) && EvalText(pr, c, "true") == Some(Bool(true))
    ensures Operand("false", 4) && EvalText(pr, c, "false") == Some(Bool(false))
    ensures Operand("null", 4) && EvalText(pr, c, "null") == Some(Null)
  {
    hide EvalText, Spells, IsNumeral, Operand;
    SpellsLiteral(w, n);
    if '\'' !in w { SpellsEval(pr, c, "'" + w + "'", StrLit(w)); OperandOf("'" + w + "'", StrLit(w), 4); }
    if IsNumeral(n) { SpellsEval(pr, c, n, NumLit(n)); OperandOf(n, NumLit(n), 4); }
    SpellsEval(pr, c, "true", BoolLit(true));
    SpellsEval(pr, c, "false", BoolLit(false));
    SpellsEval(pr, c, "null", NullLit);
    OperandOf("true", BoolLit(true), 4);
    OperandOf("false", BoolLit(false), 4);
    OperandOf("null", NullLit, 4);
  }

  /** A comparison of two operands errs if one of them does, and otherwise compares their values. */
  lemma CompareText(pr: Prims, c: EvalContext, s: string, op: CmpOp, t: string)
    requires Operand(s, 4) && Operand(t, 4)
    ensures var text := s + " " + CmpText(op) + " " + t;
            && Operand(text, 3)
            && match (EvalText(pr, c, s), EvalText(pr, c, t))
               case (Some(a), Some(b)) => EvalText(pr, c, text) == Some(Bool(Holds(pr, a, op, b)))
               case _ => EvalText(pr, c, text) == None
  {
    var l :| Spells(s, l) && Level(l) >= 4;
    var r :| Spells(t, r) && Level(r) >= 4;
    var text := s + " " + CmpText(op) + " " + t;
    hide EvalText, Spells, Operand, EvalComparison, CmpText;
    SpellsCmp(s, l, op, t, r);
    SpellsEval(pr, c, s, l);
    SpellsEval(pr, c, t, r);
    SpellsEval(pr, c, text, Cmp(op, l, r));
    OperandOf(text, Cmp(op, l, r), 3);
    if Denote(pr, c, l).Some? && Denote(pr, c, r).Some? {
      TruthValue(pr, Denote(pr, c, l).value, op, Denote(pr, c, r).value);
    }
  }

  lemma TruthValue(pr: Prims, a: Value, op: CmpOp, b: Value)
    ensures EvalComparison(pr, a, op, b) == Bool(Holds(pr, a, op, b))
  {
    hide ValuesEqual, ToFloat, FloatLt, FloatEq, Compare, Lowered;
  }

  /** `&&` evaluates both sides and yields a truth value; it errs if one side does. */
  lemma AndText(pr: Prims, c: EvalContext, s: string, t: string)
    requires Operand(s, 1) && Operand(t, 2)
    ensures Operand(s + " && " + t, 1)
    ensures match (EvalText(pr, c, s), EvalText(pr, c, t))
            case (Some(a), Some(b)) => EvalText(pr, c, s + " && " + t) == Some(Bool(IsTruthy(a) && IsTruthy(b)))
            case _ => EvalText(pr, c, s + " && " + t) == None
  {
    var l :| Spells(s, l) && Level(l) >= 1;
    var r :| Spells(t, r) && Level(r) >= 2;
    hide EvalText, Spells, Operand, IsTruthy, Denote;
    AndDenotes(pr, c, l, r);
    SpellsAnd(s, l, t, r);
    SpellsEval(pr, c, s, l);
    SpellsEval(pr, c, t, r);
    SpellsEval(pr, c, s + " && " + t, And(l, r));
    OperandOf(s + " && " + t, And(l, r), 1);
  }

  lemma AndDenotes(pr: Prims, c: EvalContext, l: Expr, r: Expr)
    ensures match (Denote(pr, c, l), Denote(pr, c, r))
            case (Some(a), Some(b)) => Denote(pr, c, And(l, r)) == Some(Bool(IsTruthy(a) && IsTruthy(b)))
            case _ => Denote(pr, c, And(l, r)) == None
  {
  }

  /** So does `||`, which binds looser. */
  lemma OrText(pr: Prims, c: EvalContext, s: string, t: string)
    requires Operand(s, 0) && Operand(t, 1)
    ensures Operand(s + " || " + t, 0)
    ensures match (EvalText(pr, c, s), EvalText(pr, c, t))
            case (Some(a), Some(b)) => EvalText(pr, c, s + " || " + t) == Some(Bool(IsTruthy(a) || IsTruthy(b)))
            case _ => EvalText(pr, c, s + " || " + t) == None
  {
    var l :| Spells(s, l) && Level(l) >= 0;
    var r :| Spells(t, r) && Level(r) >= 1;
    hide EvalText, Spells, Operand, IsTruthy, Denote;
    OrDenotes(pr, c, l, r);
    SpellsOr(s, l, t, r);
    SpellsEval(pr, c, s, l);
    SpellsEval(pr, c, t, r);
    SpellsEval(pr, c, s + " || " + t, Or(l, r));
    OperandOf(s + " || " + t, Or(l, r), 0);
  }

  lemma OrDenotes(pr: Prims, c: EvalContext, l: Expr, r: Expr)
    ensures match (Denote(pr, c, l), Denote(pr, c, r))
            case (Some(a), Some(b)) => Denote(pr, c, Or(l, r)) == Some(Bool(IsTruthy(a) || IsTruthy(b)))
            case _ => Denote(pr, c, Or(l, r)) == None
  {
  }

  /** `!` yields the negated truth value of all that follows it up to `&&` or `||`, comparisons included. */
  lemma NotText(pr: Prims, c: EvalContext, s: string)
    requires Operand(s, 2) && (s != "" ==> s[0] != '=')
    ensures Operand("!" + s, 2)
    ensures match EvalText(pr, c, s)
            case Some(v) => EvalText(pr, c, "!" + s) == Some(Bool(!IsTruthy(v)))
            case None => EvalText(pr, c, "!" + s) == None
  {
    var e :| Spells(s, e) && Level(e) >= 2;
    hide EvalText, Spells, Operand, IsTruthy;
    SpellsNot(s, e);
    SpellsEval(pr, c, s, e);
    SpellsEval(pr, c, "!" + s, Not(e));
    OperandOf("!" + s, Not(e), 2);
  }

  /** Parentheses change nothing but make any expression an operand. */
  lemma ParenText(pr: Prims, c: EvalContext, s: string)
    requires Operand(s, 0)
    ensures Operand("(" + s + ")", 4) && EvalText(pr, c, "(" + s + ")") == EvalText(pr, c, s)
  {
    var e :| Spells(s, e) && Level(e) >= 0;
    hide EvalText, Spells, Operand;
    SpellsParen(s, e);
    SpellsEval(pr, c, s, e);
    SpellsEval(pr, c, "(" + s + ")", Paren(e));
    OperandOf("(" + s + ")", Paren(e), 4);
  }

  /** A call evaluates all its arguments in order and errs if one of them does. */
  lemma CallText(pr: Prims, c: EvalContext, f: string, ss: seq<string>, vs: seq<Value>)
    requires Writable(Ident(f)) && |vs| == |ss|
    requires forall i | 0 <= i < |ss| :: Operand(ss[i], 0)
    ensures var text := f + "(" + ArgText(ss) + ")";
            && Operand(text, 4)
            && ((forall i | 0 <= i < |ss| :: EvalText(pr, c, ss[i]) == Some(vs[i])) ==>
                  EvalText(pr, c, text) == CallFunction(pr, c, f, vs))
            && ((exists i | 0 <= i < |ss| :: EvalText(pr, c, ss[i]) == None) ==> EvalText(pr, c, text) == None)
  {
    Trees(ss);
    var es :| SpellAll(ss, es);
    var text := f + "(" + ArgText(ss) + ")";
    SpellsCall(f, ss, es);
    OperandOf(text, Call(f, es), 4);
    SpellsEval(pr, c, text, Call(f, es));
    forall i | 0 <= i < |ss| ensures EvalText(pr, c, ss[i]) == Denote(pr, c, es[i]) { SpellsEval(pr, c, ss[i], es[i]); }
    hide EvalText, Spells, Operand, CallFunction, Writable, ArgText;
    ArgValues(pr, c, es, vs);
  }

  lemma {:induction false} Trees(ss: seq<string>)
    requires forall i | 0 <= i < |ss| :: Operand(ss[i], 0)
    ensures exists es :: SpellAll(ss, es)
  {
    hide Spells;
    if ss == [] {
      assert SpellAll([], []);
    } else {
      var e :| Spells(ss[0], e) && Level(e) >= 0;
      Trees(ss[1..]);
      var more :| SpellAll(ss[1..], more);
      assert SpellAll(ss, [e] + more);
    }
  }

  lemma {:induction false} ArgValues(pr: Prims, c: EvalContext, es: seq<Expr>, vs: seq<Value>)
    requires |vs| == |es|
    ensures (forall i | 0 <= i < |es| :: Denote(pr, c, es[i]) == Some(vs[i])) ==> DenoteArgs(pr, c, es) == Some(vs)
    ensures (exists i | 0 <= i < |es| :: Denote(pr, c, es[i]) == None) ==> DenoteArgs(pr, c, es) == None
  {
    hide Denote;
    if es != [] {
      ArgValues(pr, c, es[1..], vs[1..]);
      assert vs == [vs[0]] + vs[1..];
      if i :| 0 <= i < |es| && Denote(pr, c, es[i]) == None {
        if i > 0 { assert Denote(pr, c, es[1..][i - 1]) == None; }
      }
    }
  }

  // ---- numbers ----

  /** Numerals compare as the reals they stand for. */
  lemma NumeralsCompare(pr: Prims, c: EvalContext, n: string, x: real, m: string, y: real)
    requires IsNumeral(n) && pr.parseFloat(n) == Some(Fin(x))
    requires IsNumeral(m) && pr.parseFloat(m) == Some(Fin(y))
    ensures EvalText(pr, c, n + " < " + m) == Some(Bool(x < y))
    ensures EvalText(pr, c, n + " <= " + m) == Some(Bool(x <= y))
    ensures EvalText(pr, c, n + " > " + m) == Some(Bool(x > y))
    ensures EvalText(pr, c, n + " >= " + m) == Some(Bool(x >= y))
    ensures EvalText(pr, c, n + " == " + m) == Some(Bool(x == y))
    ensures EvalText(pr, c, n + " != " + m) == Some(Bool(x != y))
  {
    OperatorTexts(n, m);
    hide EvalText, Operand, IsNumeral, CmpText, EvalComparison;
    LiteralText(pr, c, "", n);
    LiteralText(pr, c, "", m);
    NumbersCompare(pr, Num(Fin(x)), Fin(x), Num(Fin(y)), Fin(y));
    CompareText(pr, c, n, Lt, m);
    CompareText(pr, c, n, Lte, m);
    CompareText(pr, c, n, Gt, m);
    CompareText(pr, c, n, Gte, m);
    CompareText(pr, c, n, Eq, m);
    CompareText(pr, c, n, Neq, m);
  }

  lemma OperatorTexts(s: string, t: string)
    ensures s + " " + CmpText(Lt) + " " + t == s + " < " + t && s + " " + CmpText(Lte) + " " + t == s + " <= " + t
    ensures s + " " + CmpText(Gt) + " " + t == s + " > " + t && s + " " + CmpText(Gte) + " " + t == s + " >= " + t
    ensures s + " " + CmpText(Eq) + " " + t == s + " == " + t && s + " " + CmpText(Neq) + " " + t == s + " != " + t
  {
  }

  /** A quoted text that reads as a number that is none, next to a numeral: every order operator is false. */
  lemma NotANumber(pr: Prims, c: EvalContext, w: string, op: CmpOp, n: string)
    requires '\'' !in w && pr.parseFloat(w) == Some(NaN) && IsNumeral(n) && pr.parseFloat(n).Some?
    requires op in {Lt, Lte, Gt, Gte}
    ensures EvalText(pr, c, "'" + w + "'" + " " + CmpText(op) + " " + n) == Some(Bool(false))
  {
    hide EvalText, Operand, IsNumeral, CmpText, EvalComparison;
    LiteralText(pr, c, w, n);
    var f := pr.parseFloat(n).value;
    NumbersCompare(pr, Str(w), NaN, Num(f), f);
    CompareText(pr, c, "'" + w + "'", op, n);
  }

  /** A text on which `<=` and `>` are both false. */
  lemma NaNBreaksNegation(pr: Prims, c: EvalContext)
    requires pr.parseFloat("NaN") == Some(NaN) && pr.parseFloat("1") == Some(Fin(1.0))
    ensures EvalText(pr, c, "'NaN' <= 1") == Some(Bool(false)) && EvalText(pr, c, "'NaN' > 1") == Some(Bool(false))
  {
    hide EvalText, IsNumeral, CmpText;
    OneIsNumeral();
    NotANumber(pr, c, "NaN", Lte, "1");
    NotANumber(pr, c, "NaN", Gt, "1");
    NaNTexts();
  }

  lemma OneIsNumeral()
    ensures IsNumeral("1")
  {
  }

  lemma NaNTexts()
    ensures "'" + "NaN" + "'" + " " + CmpText(Lte) + " " + "1" == "'NaN' <= 1"
    ensures "'" + "NaN" + "'" + " " + CmpText(Gt) + " " + "1" == "'NaN' > 1"
  {
    assert "'" + "NaN" + "'" == "'NaN'";
  }
}

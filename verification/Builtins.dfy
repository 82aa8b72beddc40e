/** The functions an expression can call. */
module Builtins {
  import opened Text
  import opened Values
  import opened Context

  predicate StatusOk(s: JobStatus) {
    s == Success || s == Pending
  }

  predicate EvalContains(pr: Prims, search: Value, item: Value) {
    if search.List? then exists v | v in search.vs :: ValuesEqual(pr, v, item)
    else Text.Contains(Lowered(pr, search), Lowered(pr, item))
  }

  /** Placeholders are replaced one argument after the other, so a value may introduce later placeholders. */
  function EvalFormat(pr: Prims, tmpl: string, args: seq<Value>, i: nat): string
    decreases |args|
  {
    if args == [] then tmpl
    else EvalFormat(pr, ReplaceAll(tmpl, "{" + Itoa(i) + "}", ValueToString(pr, args[0])), args[1..], i + 1)
  }

  function EvalJoin(pr: Prims, v: Value, sep: string): string {
    if v.List? then Join(seq(|v.vs|, i requires 0 <= i < |v.vs| => ValueToString(pr, v.vs[i])), sep)
    else ValueToString(pr, v)
  }

  /** `None` is an error: a wrong number of arguments, JSON that does not convert, or an unknown name. */
  function CallFunction(pr: Prims, c: EvalContext, name: string, args: seq<Value>): Option<Value> {
    match name
    case "contains" => if |args| != 2 then None else Some(Bool(EvalContains(pr, args[0], args[1])))
    case "startsWith" =>
      if |args| != 2 then None else Some(Bool(HasPrefix(Lowered(pr, args[0]), Lowered(pr, args[1]))))
    case "endsWith" =>
      if |args| != 2 then None else Some(Bool(HasSuffix(Lowered(pr, args[0]), Lowered(pr, args[1]))))
    case "format" =>
      if |args| < 1 then None else Some(Str(EvalFormat(pr, ValueToString(pr, args[0]), args[1..], 0)))
    case "join" =>
      if |args| < 1 || |args| > 2 then None
      else Some(Str(EvalJoin(pr, args[0], if |args| == 2 then ValueToString(pr, args[1]) else ",")))
    case "toJSON" =>
      if |args| != 1 then None
      else (match pr.toJson(args[0]) case Some(t) => Some(Str(t)) case None => None)
    case "fromJSON" => if |args| != 1 then None else pr.fromJson(ValueToString(pr, args[0]))
    case "always" => Some(Bool(true))
    case "success" => Some(Bool(StatusOk(c.jobStatus)))
    case "failure" => Some(Bool(c.jobStatus == Failure))
    case "cancelled" => Some(Bool(c.cancelled))
    case "hashFiles" => Some(Str(""))
    case _ => None
  }

  // ---- what the functions give ----

  /** Texts are searched without regard to case; a list contains what equals one of its elements. */
  lemma SearchDecides(pr: Prims, c: EvalContext, x: Value, a: string, y: Value, b: string)
    requires Shows(pr, x, a) && Shows(pr, y, b)
    ensures var p, q := pr.toLower(a), pr.toLower(b);
            && (x.List? ==> CallFunction(pr, c, "contains", [x, y]) ==
                            Some(Bool(exists i | 0 <= i < |x.vs| :: Holds(pr, x.vs[i], Eq, y))))
            && (!x.List? ==> CallFunction(pr, c, "contains", [x, y]) ==
                             Some(Bool(exists u: string, v: string :: p == u + q + v)))
            && CallFunction(pr, c, "startsWith", [x, y]) == Some(Bool(|q| <= |p| && p[..|q|] == q))
            && CallFunction(pr, c, "endsWith", [x, y]) == Some(Bool(|q| <= |p| && p[|p| - |q|..] == q))
  {
    ShownOnce(pr, x, a);
    ShownOnce(pr, y, b);
    hide ValueToString, Shows, ValuesEqual;
    var p, q := pr.toLower(a), pr.toLower(b);
    if x.List? {
      ListSearch(pr, x.vs, y);
    } else {
      ContainsSplits(p, q);
    }
  }

  lemma ListSearch(pr: Prims, vs: seq<Value>, y: Value)
    ensures EvalContains(pr, List(vs), y) <==> exists i | 0 <= i < |vs| :: Holds(pr, vs[i], Eq, y)
  {
    hide ValuesEqual;
    if v :| v in vs && ValuesEqual(pr, v, y) {
      var i :| 0 <= i < |vs| && vs[i] == v;
      assert Holds(pr, vs[i], Eq, y);
    }
    if i :| 0 <= i < |vs| && Holds(pr, vs[i], Eq, y) {
      assert vs[i] in vs && ValuesEqual(pr, vs[i], y);
    }
  }

  /** A list is joined as texts, with a comma if no separator is given; anything else is just shown. */
  lemma JoinGives(pr: Prims, c: EvalContext, x: Value, ws: seq<string>, y: Value, sep: string)
    requires Shows(pr, y, sep)
    requires x.List? ==> |ws| == |x.vs| && forall i | 0 <= i < |ws| :: Shows(pr, x.vs[i], ws[i])
    requires !x.List? ==> |ws| == 1 && Shows(pr, x, ws[0])
    ensures CallFunction(pr, c, "join", [x, y]) == Some(Str(Join(ws, sep)))
    ensures CallFunction(pr, c, "join", [x]) == Some(Str(Join(ws, ",")))
    ensures ws == [] ==> CallFunction(pr, c, "join", [x, y]) == Some(Str(""))
    ensures |ws| == 1 ==> CallFunction(pr, c, "join", [x, y]) == Some(Str(ws[0]))
  {
    ShownOnce(pr, y, sep);
    if x.List? {
      forall i | 0 <= i < |ws| ensures ValueToString(pr, x.vs[i]) == ws[i] { ShownOnce(pr, x.vs[i], ws[i]); }
      hide ValueToString, Shows;
      assert seq(|x.vs|, i requires 0 <= i < |x.vs| => ValueToString(pr, x.vs[i])) == ws;
    } else {
      ShownOnce(pr, x, ws[0]);
    }
  }

  lemma JsonGives(pr: Prims, c: EvalContext, x: Value, w: string)
    requires Shows(pr, x, w)
    ensures pr.toJson(x) == None ==> CallFunction(pr, c, "toJSON", [x]) == None
    ensures pr.toJson(x) != None ==> CallFunction(pr, c, "toJSON", [x]) == Some(Str(pr.toJson(x).value))
    ensures CallFunction(pr, c, "fromJSON", [x]) == pr.fromJson(w)
    ensures CallFunction(pr, c, "hashFiles", [x]) == Some(Str(""))
  {
    ShownOnce(pr, x, w);
    hide ValueToString, Shows;
  }

  /** A call errs on a wrong number of arguments and on an unknown name. */
  lemma CallErrs(pr: Prims, c: EvalContext, f: string, args: seq<Value>)
    requires || (f in {"contains", "startsWith", "endsWith"} && |args| != 2)
             || (f in {"toJSON", "fromJSON"} && |args| != 1)
             || (f == "format" && args == []) || (f == "join" && |args| !in {1, 2})
             || f !in {"contains", "startsWith", "endsWith", "format", "join", "toJSON", "fromJSON", "hashFiles",
                       "always", "success", "failure", "cancelled"}
    ensures CallFunction(pr, c, f, args) == None
  {
    hide EvalContains, EvalFormat, EvalJoin, Lowered;
  }

  // ---- format ----

  /** A template: literal text and numbered slots. */
  datatype Part = Lit(s: string) | Slot(i: nat)

  function SlotText(i: nat): string {
    "{" + Itoa(i) + "}"
  }

  function PartText(p: Part): string {
    match p case Lit(s) => s case Slot(i) => SlotText(i)
  }

  function TemplateText(ps: seq<Part>): string {
    if ps == [] then "" else PartText(ps[0]) + TemplateText(ps[1..])
  }

  /** The slots from `k` on, as far as there are values for them, filled with the values. */
  function Filled(ps: seq<Part>, ws: seq<string>, k: nat): string {
    if ps == [] then ""
    else
      var first := if ps[0].Slot? && k <= ps[0].i < k + |ws| then ws[ps[0].i - k] else PartText(ps[0]);
      first + Filled(ps[1..], ws, k)
  }

  function Plugged(ps: seq<Part>, k: nat, w: string): (r: seq<Part>)
    ensures |r| == |ps|
  {
    seq(|ps|, i requires 0 <= i < |ps| => if ps[i] == Slot(k) then Lit(w) else ps[i])
  }

  ghost predicate BraceFree(ps: seq<Part>) {
    forall p | p in ps && p.Lit? :: '{' !in p.s
  }

  lemma {:induction false} PlugReplaces(ps: seq<Part>, k: nat, w: string)
    requires BraceFree(ps)
    ensures ReplaceAll(TemplateText(ps), SlotText(k), w) == TemplateText(Plugged(ps, k, w))
  {
    if ps != [] {
      var rest := TemplateText(ps[1..]);
      assert BraceFree(ps[1..]);
      PlugReplaces(ps[1..], k, w);
      assert Plugged(ps, k, w)[1..] == Plugged(ps[1..], k, w);
      assert ps[0] in ps;
      hide ReplaceAll, SlotText;
      match ps[0]
      case Lit(s) => PassLiteral(s, rest, k, w);
      case Slot(i) =>
        if i == k { PlugSlot(rest, k, w); } else { PassSlot(i, rest, k, w); }
    }
  }

  lemma PassLiteral(s: string, rest: string, k: nat, w: string)
    requires '{' !in s
    ensures SlotText(k) != "" && ReplaceAll(s + rest, SlotText(k), w) == s + ReplaceAll(rest, SlotText(k), w)
  {
    hide ReplaceAll;
    ReplacePassed(s, rest, SlotText(k), w);
  }

  lemma PlugSlot(rest: string, k: nat, w: string)
    ensures SlotText(k) != "" && ReplaceAll(SlotText(k) + rest, SlotText(k), w) == w + ReplaceAll(rest, SlotText(k), w)
  {
    hide ReplaceAll;
    ReplaceHit(rest, SlotText(k), w);
  }

  lemma PassSlot(i: nat, rest: string, k: nat, w: string)
    requires i != k
    ensures SlotText(k) != "" && ReplaceAll(SlotText(i) + rest, SlotText(k), w) == SlotText(i) + ReplaceAll(rest, SlotText(k), w)
  {
    var s, pat, tail := SlotText(i) + rest, SlotText(k), Itoa(i) + "}";
    hide HasPrefix, Itoa, ReplaceAll, AtoiDigits;
    if HasPrefix(s, pat) { SlotsDiffer(i, rest, k); }
    ItoaDigits(i);
    assert s[0] == '{' && s[1..] == tail + rest && '{' !in tail;
    ReplaceMiss(s, pat, w);
    ReplacePassed(tail, rest, pat, w);
  }

  /** A closing brace ends a text that has none. */
  lemma {:induction false} SameUpToBrace(a: string, x: string, b: string, y: string)
    requires '}' !in a && '}' !in b && a + "}" + x == b + "}" + y
    ensures a == b
  {
    var s := a + "}" + x;
    assert s[0] == (a + "}")[0] && s[0] == (b + "}")[0];
    if a != "" && b != "" {
      assert s[1..] == a[1..] + "}" + x && s[1..] == b[1..] + "}" + y;
      SameUpToBrace(a[1..], x, b[1..], y);
    }
  }

  lemma SlotsDiffer(i: nat, rest: string, k: nat)
    requires HasPrefix(SlotText(i) + rest, SlotText(k))
    ensures i == k
  {
    hide AtoiDigits, Atoi, Itoa;
    ItoaDigits(i);
    ItoaDigits(k);
    var s, n := SlotText(i) + rest, |SlotText(k)|;
    assert s == SlotText(k) + s[n..];
    assert s[1..] == Itoa(i) + "}" + rest && s[1..] == Itoa(k) + "}" + s[n..];
    SameUpToBrace(Itoa(i), rest, Itoa(k), s[n..]);
    AtoiOfItoa(i);
    AtoiOfItoa(k);
  }

  lemma {:induction false} FilledMore(ps: seq<Part>, ws: seq<string>, k: nat)
    requires ws != []
    ensures Filled(Plugged(ps, k, ws[0]), ws[1..], k + 1) == Filled(ps, ws, k)
  {
    if ps != [] {
      assert Plugged(ps, k, ws[0])[1..] == Plugged(ps[1..], k, ws[0]);
      FilledMore(ps[1..], ws, k);
    }
  }

  lemma {:induction false} FilledNone(ps: seq<Part>, k: nat)
    ensures Filled(ps, [], k) == TemplateText(ps)
  {
    if ps != [] { FilledNone(ps[1..], k); }
  }

  lemma {:induction false} FormatFrom(pr: Prims, ps: seq<Part>, args: seq<Value>, ws: seq<string>, k: nat)
    requires BraceFree(ps) && |ws| == |args|
    requires forall i | 0 <= i < |ws| :: Shows(pr, args[i], ws[i]) && '{' !in ws[i]
    ensures EvalFormat(pr, TemplateText(ps), args, k) == Filled(ps, ws, k)
    decreases |args|
  {
    hide Shows, ReplaceAll, ValueToString, TemplateText, Filled;
    if args == [] {
      FilledNone(ps, k);
    } else {
      ShownOnce(pr, args[0], ws[0]);
      PlugReplaces(ps, k, ws[0]);
      FormatFrom(pr, Plugged(ps, k, ws[0]), args[1..], ws[1..], k + 1);
      FilledMore(ps, ws, k);
    }
  }

  /** Slots are filled with the arguments, as texts; slots without an argument stay. Braces in the literal text or in
      values are left out here: arguments go in one after the other, so a value may bring in slots for later ones. */
  lemma FormatGives(pr: Prims, c: EvalContext, ps: seq<Part>, args: seq<Value>, ws: seq<string>)
    requires BraceFree(ps) && |ws| == |args|
    requires forall i | 0 <= i < |ws| :: Shows(pr, args[i], ws[i]) && '{' !in ws[i]
    ensures CallFunction(pr, c, "format", [Str(TemplateText(ps))] + args) == Some(Str(Filled(ps, ws, 0)))
  {
    hide EvalFormat, Shows, TemplateText, Filled;
    FormatFrom(pr, ps, args, ws, 0);
    assert ([Str(TemplateText(ps))] + args)[1..] == args;
  }
}

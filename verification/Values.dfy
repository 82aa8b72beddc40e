/** Values of the expression language, and the coercions its operators and functions use. */
module Values {
  import opened Text

  /** Floating-point numbers up to rounding: the special values matter, the precision does not. */
  datatype Float = Fin(r: real) | PosInf | NegInf | NaN

  datatype Value =
    | Null
    | Bool(b: bool)
    | Num(f: Float)
    | Int(i: int)
    | Str(s: string)
    | List(vs: seq<Value>)
    | Obj(m: map<string, Value>)

  /** The library routines that stay uninterpreted. `foldKey` is the key at which a range over a map first
      finds a case-insensitive match; which one it is, Go leaves open. */
  datatype Prims = Prims(
    parseFloat: string -> Option<Float>,
    formatFloat: Float -> string,
    toLower: string -> string,
    equalFold: (string, string) -> bool,
    toJson: Value -> Option<string>,
    fromJson: string -> Option<Value>,
    foldKey: (map<string, Value>, string) -> Option<string>)

  datatype CmpOp = Eq | Neq | Lt | Lte | Gt | Gte

  predicate FloatLt(a: Float, b: Float) {
    match (a, b)
    case (Fin(x), Fin(y)) => x < y
    case (NaN, _) => false
    case (_, NaN) => false
    case (NegInf, _) => !b.NegInf?
    case (_, PosInf) => !a.PosInf?
    case _ => false
  }

  predicate FloatEq(a: Float, b: Float) {
    !a.NaN? && a == b
  }

  predicate IsTruthy(v: Value) {
    match v
    case Null => false
    case Bool(b) => b
    case Num(f) => f != Fin(0.0)
    case Int(i) => i != 0
    case Str(s) => s != ""
    case _ => true
  }

  function ValueToString(pr: Prims, v: Value): string {
    match v
    case Null => ""
    case Str(s) => s
    case Bool(b) => if b then "true" else "false"
    case Num(f) => pr.formatFloat(f)
    case Int(i) => Itoa(i)
    case _ => match pr.toJson(v) case Some(t) => t case None => ""
  }

  function ToFloat(pr: Prims, v: Value): Option<Float> {
    match v
    case Num(f) => Some(f)
    case Int(i) => Some(Fin(i as real))
    case Str(s) => pr.parseFloat(s)
    case _ => None
  }

  predicate ValuesEqual(pr: Prims, a: Value, b: Value) {
    if a.Null? && b.Null? then true
    else if a.Null? || b.Null? then false
    else
      var x, y := ToFloat(pr, a), ToFloat(pr, b);
      if x.Some? && y.Some? then FloatEq(x.value, y.value)
      else pr.equalFold(ValueToString(pr, a), ValueToString(pr, b))
  }

  function Lowered(pr: Prims, v: Value): string {
    pr.toLower(ValueToString(pr, v))
  }

  function EvalComparison(pr: Prims, l: Value, op: CmpOp, r: Value): Value {
    if op.Eq? then Bool(ValuesEqual(pr, l, r))
    else if op.Neq? then Bool(!ValuesEqual(pr, l, r))
    else
      var x, y := ToFloat(pr, l), ToFloat(pr, r);
      if x.Some? && y.Some? then
        var a, b := x.value, y.value;
        match op
        case Lt => Bool(FloatLt(a, b))
        case Lte => Bool(FloatLt(a, b) || FloatEq(a, b))
        case Gt => Bool(FloatLt(b, a))
        case _ => Bool(FloatLt(b, a) || FloatEq(a, b))
      else
        var c := Compare(Lowered(pr, l), Lowered(pr, r));
        match op
        case Lt => Bool(c < 0)
        case Lte => Bool(c <= 0)
        case Gt => Bool(c > 0)
        case _ => Bool(c >= 0)
  }

  lemma {:induction false} CompareFlips(a: string, b: string)
    ensures Compare(a, b) == -Compare(b, a)
  {
    if a != "" && b != "" && a[0] == b[0] {
      CompareFlips(a[1..], b[1..]);
    }
  }

  predicate Holds(pr: Prims, l: Value, op: CmpOp, r: Value) {
    EvalComparison(pr, l, op, r) == Bool(true)
  }

  /** Both sides are numbers, or read as numbers, and one of them is not a number after all. */
  predicate MeetsNaN(pr: Prims, l: Value, r: Value) {
    var x, y := ToFloat(pr, l), ToFloat(pr, r);
    x.Some? && y.Some? && (x.value.NaN? || y.value.NaN?)
  }

  function Mirror(op: CmpOp): CmpOp {
    match op
    case Lt => Gt
    case Lte => Gte
    case Gt => Lt
    case Gte => Lte
    case _ => op
  }

  /** The order operators mirror each other when the operands change places. */
  lemma ComparisonMirrors(pr: Prims, l: Value, op: CmpOp, r: Value)
    requires op != Eq && op != Neq
    ensures Holds(pr, l, op, r) <==> Holds(pr, r, Mirror(op), l)
  {
    hide Compare, Lowered, ToFloat, ValuesEqual;
    CompareFlips(Lowered(pr, l), Lowered(pr, r));
    var x, y := ToFloat(pr, l), ToFloat(pr, r);
    if x.Some? && y.Some? {
      hide FloatLt;
      assert FloatEq(x.value, y.value) == FloatEq(y.value, x.value);
    }
  }

  /** The operators with and without equality are each other's negation exactly where no NaN is met. */
  lemma ComparisonNegates(pr: Prims, l: Value, r: Value)
    ensures (Holds(pr, l, Lte, r) <==> !Holds(pr, l, Gt, r)) <==> !MeetsNaN(pr, l, r)
    ensures (Holds(pr, l, Gte, r) <==> !Holds(pr, l, Lt, r)) <==> !MeetsNaN(pr, l, r)
  {
    hide Compare, ValueToString, ToFloat, ValuesEqual;
  }

  // ---- what values stand for ----

  /** The value is the number `f`, or a text that reads as `f`. */
  predicate Reads(pr: Prims, v: Value, f: Float) {
    || v == Num(f)
    || (v.Int? && f == Fin(v.i as real))
    || (v.Str? && pr.parseFloat(v.s) == Some(f))
  }

  /** The value is no number and no text that reads as one. */
  predicate NotNumber(pr: Prims, v: Value) {
    v.Null? || v.Bool? || v.List? || v.Obj? || (v.Str? && pr.parseFloat(v.s) == None)
  }

  /** `w` is the value as text: nothing for null, the words for truth values, numerals for numbers, a text itself, and
      JSON for lists and objects, or nothing if it cannot be produced. */
  predicate Shows(pr: Prims, v: Value, w: string) {
    || (v == Null && w == "")
    || v == Str(w)
    || (v == Bool(true) && w == "true")
    || (v == Bool(false) && w == "false")
    || (v.Num? && w == pr.formatFloat(v.f))
    || (v.Int? && w == Itoa(v.i))
    || ((v.List? || v.Obj?) && (pr.toJson(v) == Some(w) || (pr.toJson(v) == None && w == "")))
  }

  /** Every value is shown as exactly one text. */
  lemma ShownOnce(pr: Prims, v: Value, w: string)
    ensures Shows(pr, v, w) <==> ValueToString(pr, v) == w
  {
  }

  /** Every value but these is true. */
  lemma TruthOf(v: Value)
    ensures !IsTruthy(v) <==> v == Null || v == Bool(false) || v == Num(Fin(0.0)) || v == Int(0) || v == Str("")
  {
  }

  // ---- what comparisons decide ----

  /** Numbers compare as reals, with the infinities at the ends; a NaN is unequal to everything and in no order. */
  lemma NumbersCompare(pr: Prims, l: Value, x: Float, r: Value, y: Float)
    requires Reads(pr, l, x) && Reads(pr, r, y)
    ensures x.Fin? && y.Fin? ==>
              && (Holds(pr, l, Lt, r) <==> x.r < y.r) && (Holds(pr, l, Lte, r) <==> x.r <= y.r)
              && (Holds(pr, l, Gt, r) <==> x.r > y.r) && (Holds(pr, l, Gte, r) <==> x.r >= y.r)
    ensures (x.NegInf? && !y.NaN?) || (y.PosInf? && !x.NaN?) ==>
              && (Holds(pr, l, Lt, r) <==> x != y) && Holds(pr, l, Lte, r)
              && !Holds(pr, l, Gt, r) && (Holds(pr, l, Gte, r) <==> x == y)
    ensures (x.PosInf? && !y.NaN?) || (y.NegInf? && !x.NaN?) ==>
              && !Holds(pr, l, Lt, r) && (Holds(pr, l, Lte, r) <==> x == y)
              && (Holds(pr, l, Gt, r) <==> x != y) && Holds(pr, l, Gte, r)
    ensures x.NaN? || y.NaN? ==> forall op | op in {Eq, Lt, Lte, Gt, Gte} :: !Holds(pr, l, op, r)
    ensures Holds(pr, l, Eq, r) <==> x == y && !x.NaN?
    ensures Holds(pr, l, Neq, r) <==> x != y || x.NaN?
  {
    ReadsFloat(pr, l, x);
    ReadsFloat(pr, r, y);
    hide ToFloat, Reads, Compare, Lowered, ValueToString;
  }

  lemma ReadsFloat(pr: Prims, v: Value, f: Float)
    requires Reads(pr, v, f)
    ensures ToFloat(pr, v) == Some(f) && !v.Null?
  {
  }

  /** Where not both sides are numbers, lower-cased texts compare lexicographically. */
  lemma TextsCompare(pr: Prims, l: Value, a: string, r: Value, b: string)
    requires Shows(pr, l, a) && Shows(pr, r, b) && (NotNumber(pr, l) || NotNumber(pr, r))
    ensures var p, q := pr.toLower(a), pr.toLower(b);
            && (Holds(pr, l, Lt, r) <==> Precedes(p, q)) && (Holds(pr, l, Lte, r) <==> p == q || Precedes(p, q))
            && (Holds(pr, l, Gt, r) <==> Precedes(q, p)) && (Holds(pr, l, Gte, r) <==> p == q || Precedes(q, p))
  {
    hide Compare, Precedes, Itoa;
    ShownOnce(pr, l, a);
    ShownOnce(pr, r, b);
    CompareOrders(pr.toLower(a), pr.toLower(b));
    hide ValueToString, Shows;
  }

  /** Then `==` holds between nulls, never between null and something else, and otherwise of texts equal up to case;
      and `!=` is its negation. */
  lemma EqualityDecides(pr: Prims, l: Value, a: string, r: Value, b: string)
    requires Shows(pr, l, a) && Shows(pr, r, b) && (NotNumber(pr, l) || NotNumber(pr, r))
    ensures l == Null && r == Null ==> Holds(pr, l, Eq, r)
    ensures (l == Null && r != Null) || (l != Null && r == Null) ==> !Holds(pr, l, Eq, r)
    ensures l != Null && r != Null ==> (Holds(pr, l, Eq, r) <==> pr.equalFold(a, b))
    ensures Holds(pr, l, Neq, r) <==> !Holds(pr, l, Eq, r)
  {
    hide Compare, Itoa;
    ShownOnce(pr, l, a);
    ShownOnce(pr, r, b);
  }
}

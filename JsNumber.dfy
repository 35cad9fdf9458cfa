/** The part of JavaScript's number semantics the analytics rely on:
    a division by zero yields an infinity or NaN instead of an error, and
    every comparison with NaN is false. Finite values are exact reals;
    IEEE-754 rounding is not modelled. */
module JsNumber {

  datatype Num = Finite(val: real) | PosInf | NegInf | NaN

  /** `a / b` for two finite operands. */
  function Div(a: real, b: real): (r: Num)
    ensures b != 0.0 ==> r == Finite(a / b)
    ensures b == 0.0 ==> (r == NaN <==> a == 0.0) && (r == PosInf <==> a > 0.0) && (r == NegInf <==> a < 0.0)
  {
    if b != 0.0 then Finite(a / b)
    else if a > 0.0 then PosInf
    else if a < 0.0 then NegInf
    else NaN
  }

  /** `x * k` for a positive finite factor `k`. */
  function Times(x: Num, k: real): (r: Num)
    requires k > 0.0
    ensures r.Finite? <==> x.Finite?
    ensures x.Finite? ==> r.val == x.val * k
    ensures !x.Finite? ==> r == x
  {
    match x
    case Finite(v) => Finite(v * k)
    case _ => x
  }

  /** `a + b`. */
  function Plus(a: Num, b: Num): (r: Num)
    ensures a.Finite? && b.Finite? ==> r == Finite(a.val + b.val)
    ensures (a == NaN || b == NaN) ==> r == NaN
    ensures (a == PosInf && b == NegInf) || (a == NegInf && b == PosInf) ==> r == NaN
  {
    match (a, b)
    case (Finite(x), Finite(y)) => Finite(x + y)
    case (NaN, _) => NaN
    case (_, NaN) => NaN
    case (PosInf, NegInf) => NaN
    case (NegInf, PosInf) => NaN
    case (PosInf, _) => PosInf
    case (_, PosInf) => PosInf
    case (NegInf, _) => NegInf
    case (_, NegInf) => NegInf
  }

  /** `a < b`: false whenever either side is NaN. */
  predicate Less(a: Num, b: Num)
  {
    match a
    case NaN => false
    case PosInf => false
    case NegInf => b.Finite? || b.PosInf?
    case Finite(x) => b.PosInf? || (b.Finite? && x < b.val)
  }

  /** `a >= b`: also false whenever either side is NaN. */
  predicate AtLeast(a: Num, b: Num)
  {
    a != NaN && b != NaN && !Less(a, b)
  }

  /** `x || 0` for a number: NaN and zero are falsy and become 0. */
  function OrZero(x: Num): (r: Num)
    ensures r != NaN
    ensures x == NaN ==> r == Finite(0.0)
    ensures x != NaN ==> r == x
  {
    if x == NaN then Finite(0.0) else x
  }

  /** Both comparisons agree with the real order on finite numbers; a
      comparison that holds involves no NaN, `<` never holds from +Infinity
      or to -Infinity, and `>=` excludes `<`. */
  lemma CompareMeaning(a: Num, b: Num)
    ensures Less(a, b) ==> a != NaN && b != NaN
    ensures Less(a, b) ==> a != PosInf && b != NegInf
    ensures a.Finite? && b.Finite? ==> (Less(a, b) <==> a.val < b.val)
    ensures AtLeast(a, b) ==> a != NaN && b != NaN && !Less(a, b)
    ensures a.Finite? && b.Finite? ==> (AtLeast(a, b) <==> a.val >= b.val)
  {
  }

  lemma LessIrreflexive(a: Num)
    ensures !Less(a, a)
  {
  }

  lemma LessTransitive(a: Num, b: Num, c: Num)
    requires Less(a, b) && Less(b, c)
    ensures Less(a, c)
  {
  }

  /** On non-NaN values `<` is a strict total order. */
  lemma LessTotal(a: Num, b: Num)
    requires a != NaN && b != NaN
    ensures Less(a, b) || a == b || Less(b, a)
  {
  }
}

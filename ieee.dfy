/**
 * The double-precision values the program computes with, reduced to what matters for its
 * behaviour: an exact real, the two infinities and NaN, following IEEE 754-2008 (section 7.2,
 * invalid operation; section 7.3, division by zero). Rounding and overflow are not modelled.
 * Zero has one sign only: every divisor the program uses is a gene value (+0 when zero) or
 * is taken through an absolute value, so the sign of a zero never reaches an outcome.
 */
module Ieee {
  import opened Wrappers

  datatype Float = Fin(r: real) | PosInf | NegInf | NaN

  /** math.IsNaN. */
  predicate IsNaN(x: Float) { x.NaN? }

  /** math.IsInf(x, 0): either infinity. */
  predicate IsInf(x: Float) { x.PosInf? || x.NegInf? }

  /**
   * math.IsNaN and math.IsInf(x, 0) split the doubles: every value is exactly one of NaN, an
   * infinity or finite, and neither test depends on the sign.
   */
  lemma Classes(x: Float)
    ensures IsNaN(x) <==> !x.Fin? && !IsInf(x)
    ensures IsInf(x) ==> !IsNaN(x)
    ensures IsNaN(Neg(x)) == IsNaN(x) && IsInf(Neg(x)) == IsInf(x)
  {
  }

  /** The values a fitness score or a sum of fitness scores can take: a non-negative real or +Inf. */
  predicate NonNeg(x: Float) { x == PosInf || (x.Fin? && x.r >= 0.0) }

  function Neg(x: Float): Float {
    match x
    case Fin(a) => Fin(-a)
    case PosInf => NegInf
    case NegInf => PosInf
    case NaN => NaN
  }

  /** x + y: exact on finite operands; AddSpecialValues states the NaN and infinity cases. */
  function Add(x: Float, y: Float): (r: Float)
    ensures x.Fin? && y.Fin? ==> r == Fin(x.r + y.r)
  {
    if x.NaN? || y.NaN? then NaN
    else if (x.PosInf? && y.NegInf?) || (x.NegInf? && y.PosInf?) then NaN
    else if x.PosInf? || y.PosInf? then PosInf
    else if x.NegInf? || y.NegInf? then NegInf
    else Fin(x.r + y.r)
  }

  /** The IEEE 754 special cases of addition: NaN absorbs, +Inf + -Inf is NaN, otherwise an infinity wins. */
  lemma AddSpecialValues(x: Float, y: Float)
    ensures x.NaN? || y.NaN? ==> Add(x, y) == NaN
    ensures IsInf(x) && IsInf(y) && x != y ==> Add(x, y) == NaN
    ensures IsInf(x) && !y.NaN? && x != Neg(y) ==> Add(x, y) == x
    ensures IsInf(y) && !x.NaN? && y != Neg(x) ==> Add(x, y) == y
  {
  }

  /** Adding non-negative values stays non-negative and never goes below either operand. */
  lemma AddNonNeg(x: Float, y: Float)
    requires NonNeg(x) && NonNeg(y)
    ensures NonNeg(Add(x, y)) && Ge(Add(x, y), x) && Ge(Add(x, y), y)
  {
  }

  /** x - y: exact on finite operands; Inf - Inf of the same sign is NaN. */
  function Sub(x: Float, y: Float): (r: Float)
    ensures x.Fin? && y.Fin? ==> r == Fin(x.r - y.r)
    ensures IsInf(x) && x == y ==> r == NaN
    ensures x.NaN? || y.NaN? ==> r == NaN
  {
    Add(x, Neg(y))
  }

  /** The sign used by multiplication and division; a zero counts as +0. */
  function Sign(x: Float): int {
    match x
    case Fin(a) => if a < 0.0 then -1 else 1
    case PosInf => 1
    case NegInf => -1
    case NaN => 1
  }

  function Infinity(sign: int): Float {
    if sign < 0 then NegInf else PosInf
  }

  /** x * y: exact on finite operands, NaN for infinity times zero, otherwise a signed infinity. */
  function Mul(x: Float, y: Float): (r: Float)
    ensures x.Fin? && y.Fin? ==> r == Fin(x.r * y.r)
    ensures x.NaN? || y.NaN? ==> r == NaN
    ensures (IsInf(x) && y == Fin(0.0)) || (x == Fin(0.0) && IsInf(y)) ==> r == NaN
    ensures (IsInf(x) || IsInf(y)) && !x.NaN? && !y.NaN? && x != Fin(0.0) && y != Fin(0.0) ==>
              IsInf(r) && (r == PosInf <==> (Sign(x) < 0 <==> Sign(y) < 0))
  {
    if x.NaN? || y.NaN? then NaN
    else if IsInf(x) || IsInf(y) then
      if x == Fin(0.0) || y == Fin(0.0) then NaN else Infinity(Sign(x) * Sign(y))
    else Fin(x.r * y.r)
  }

  function Div(x: Float, y: Float): (r: Float)
    ensures x.Fin? && y == Fin(0.0) ==>
              r == (if x.r > 0.0 then PosInf else if x.r < 0.0 then NegInf else NaN)
  {
    if x.NaN? || y.NaN? then NaN
    else if IsInf(x) && IsInf(y) then NaN
    else if IsInf(x) then Infinity(Sign(x) * Sign(y))
    else if IsInf(y) then Fin(0.0)
    else if y.r == 0.0 then
      (if x.r > 0.0 then PosInf else if x.r < 0.0 then NegInf else NaN)
    else Fin(x.r / y.r)
  }

  function Abs(x: Float): (r: Float)
    ensures !x.NaN? ==> NonNeg(r)
  {
    match x
    case Fin(a) => Fin(if a < 0.0 then -a else a)
    case NegInf => PosInf
    case _ => x
  }

  /** x > y on doubles: false whenever either side is NaN. */
  predicate Gt(x: Float, y: Float) {
    if x.NaN? || y.NaN? then false
    else if x.PosInf? then !y.PosInf?
    else if x.NegInf? then false
    else if y.NegInf? then true
    else if y.PosInf? then false
    else x.r > y.r
  }

  /**
   * Gt is the order of the extended reals: false whenever either side is NaN, the real order
   * between finite values, +Inf above and -Inf below every other value.
   */
  lemma GtOrder(x: Float, y: Float)
    ensures x.NaN? || y.NaN? ==> !Gt(x, y)
    ensures x.Fin? && y.Fin? ==> (Gt(x, y) <==> x.r > y.r)
    ensures !y.NaN? ==> (Gt(PosInf, y) <==> y != PosInf) && !Gt(NegInf, y)
    ensures !x.NaN? ==> (Gt(x, NegInf) <==> x != NegInf) && !Gt(x, PosInf)
  {
  }

  /** x >= y on doubles: false whenever either side is NaN. */
  predicate Ge(x: Float, y: Float) {
    !x.NaN? && !y.NaN? && (x == y || Gt(x, y))
  }

  /**
   * big.Float's Quo followed by Float64(), at the 53-bit precision big.NewFloat gives its
   * operands; the quotient here is exact. big.Float has no NaN: where a double division would
   * give NaN (0/0, Inf/Inf) Quo panics with ErrNaN, which is None here.
   */
  function Quo(x: Float, y: Float): (r: Option<Float>)
    ensures r.None? <==> x.NaN? || y.NaN? || (x == y == Fin(0.0)) || (IsInf(x) && IsInf(y))
    ensures NonNeg(x) && NonNeg(y) && r.Some? ==> NonNeg(r.value)
  {
    if x.NaN? || y.NaN? || (x == y == Fin(0.0)) || (IsInf(x) && IsInf(y)) then None
    else Some(Div(x, y))
  }

  lemma GeTransitive(x: Float, y: Float, z: Float)
    requires Ge(x, y) && Ge(y, z)
    ensures Ge(x, z)
  {
  }

  lemma GtGeTransitive(x: Float, y: Float, z: Float)
    requires Gt(x, y) && Ge(y, z)
    ensures Gt(x, z)
  {
  }

  /** Without NaN, doubles are totally ordered. */
  /**
   * Ge is the reflexive order of the extended reals: false whenever either side is NaN, the real
   * order between finite values, +Inf above and -Inf below every value.
   */
  lemma GeOrder(x: Float, y: Float)
    ensures x.NaN? || y.NaN? ==> !Ge(x, y)
    ensures x.Fin? && y.Fin? ==> (Ge(x, y) <==> x.r >= y.r)
    ensures !y.NaN? ==> Ge(PosInf, y) && Ge(y, NegInf)
    ensures !x.NaN? ==> (Ge(NegInf, x) <==> x == NegInf) && (Ge(x, PosInf) <==> x == PosInf)
  {
  }

  lemma GtTotal(x: Float, y: Float)
    requires !x.NaN? && !y.NaN?
    ensures Gt(x, y) <==> !Ge(y, x)
  {
  }
}

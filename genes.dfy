/**
 * Gene decoding (gene.go). A gene is a byte read out of a chromosome: a code below 12 is a
 * number whose value is the code itself, a code of 12 or more is an operator. The arithmetic
 * (Operate) and the printed symbol (String) agree that 14 divides and 15 multiplies, while the
 * unused predicates IsMultiply and IsDivide name 14 and 15 the other way round; both are kept
 * as written.
 */
module Genes {
  import opened Wrappers
  import opened Ieee

  type Gene = bv8

  const Plus: Gene := 12
  const Minus: Gene := 13
  const Slash: Gene := 14
  const Star: Gene := 15

  /** Among the 4-bit codes, the numbers are exactly the genes String prints without an operator symbol. */
  predicate IsNumber(g: Gene)
    ensures g < 16 ==> (IsNumber(g) <==> Symbol(g).None?)
  {
    g < 12
  }

  function IsOperator(g: Gene): (b: bool)
    ensures b <==> !IsNumber(g)
  {
    g >= 12
  }

  function IsPlus(g: Gene): (b: bool)
    ensures b ==> IsOperator(g) && Symbol(g) == Some("+")
  {
    g == 12
  }

  function IsMinus(g: Gene): (b: bool)
    ensures b ==> IsOperator(g) && Symbol(g) == Some("-")
  {
    g == 13
  }

  /** Named "multiply", but the code it tests is the one Operate divides by. */
  function IsMultiply(g: Gene): (b: bool)
    ensures b ==> IsOperator(g) && Symbol(g) == Some("/")
  {
    g == 14
  }

  /** Named "divide", but the code it tests is the one Operate multiplies by. */
  function IsDivide(g: Gene): (b: bool)
    ensures b ==> IsOperator(g) && Symbol(g) == Some("*")
  {
    g == 15
  }

  function GetValue(g: Gene): (v: int)
    ensures 0 <= v < 256 && v as Gene == g
    ensures IsNumber(g) <==> v < 12
  {
    g as int
  }

  function GetFloatValue(g: Gene): (v: real)
    ensures v == GetValue(g) as real
    ensures IsNumber(g) ==> 0.0 <= v <= 11.0
  {
    g as int as real
  }

  /**
   * The operator cases of String. The "%.2f" rendering of every other code is presentation
   * and is not modelled: those codes give None.
   */
  function Symbol(g: Gene): (s: Option<string>)
    ensures s.Some? <==> Plus <= g <= Star
    ensures s.Some? ==> |s.value| == 1
  {
    if g == 12 then Some("+")
    else if g == 13 then Some("-")
    else if g == 14 then Some("/")
    else if g == 15 then Some("*")
    else None
  }

  /** Applies operator gene g to x and y; any other code gives back x. */
  function Operate(g: Gene, x: Float, y: Float): (r: Float)
    ensures g == Plus ==> r == Add(x, y)
    ensures g == Minus ==> r == Sub(x, y)
    ensures g == Slash ==> r == Div(x, y)
    ensures g == Star ==> r == Mul(x, y)
    ensures !(Plus <= g <= Star) ==> r == x
  {
    if g == 12 then Add(x, y)
    else if g == 13 then Sub(x, y)
    else if g == 14 then Div(x, y)
    else if g == 15 then Mul(x, y)
    else x
  }

  /** Exactly one of the four operator predicates holds for each of 12..15, none for any other code. */
  lemma OperatorPredicatesPartition(g: Gene)
    ensures IsOperator(g) && g <= 15 <==> IsPlus(g) || IsMinus(g) || IsMultiply(g) || IsDivide(g)
    ensures (if IsPlus(g) then 1 else 0) + (if IsMinus(g) then 1 else 0)
            + (if IsMultiply(g) then 1 else 0) + (if IsDivide(g) then 1 else 0) <= 1
  {
  }

  /**
   * What the printed symbol of an operator gene does to two finite numbers: the symbol String
   * prints is the operation Operate performs.
   */
  lemma SymbolMatchesOperate(g: Gene, a: real, b: real)
    ensures Symbol(g) == Some("+") ==> Operate(g, Fin(a), Fin(b)) == Fin(a + b)
    ensures Symbol(g) == Some("-") ==> Operate(g, Fin(a), Fin(b)) == Fin(a - b)
    ensures Symbol(g) == Some("/") && b != 0.0 ==> Operate(g, Fin(a), Fin(b)) == Fin(a / b)
    ensures Symbol(g) == Some("*") ==> Operate(g, Fin(a), Fin(b)) == Fin(a * b)
    ensures Symbol(g).None? ==> Operate(g, Fin(a), Fin(b)) == Fin(a)
  {
    if g == Plus {
      assert Symbol(g) == Some("+");
    } else if g == Minus {
      assert Symbol(g) == Some("-");
    } else if g == Slash {
      assert Symbol(g) == Some("/");
    } else if g == Star {
      assert Symbol(g) == Some("*");
    } else {
      assert Symbol(g).None?;
    }
  }

  /**
   * IsMultiply and IsDivide hold for the codes that Operate and String treat as divide and
   * multiply respectively: the two namings are swapped.
   */
  lemma MultiplyDivideNamesSwapped(g: Gene, a: real, b: real)
    requires b != 0.0
    ensures IsMultiply(g) ==> Operate(g, Fin(a), Fin(b)) == Fin(a / b) && Symbol(g) == Some("/")
    ensures IsDivide(g) ==> Operate(g, Fin(a), Fin(b)) == Fin(a * b) && Symbol(g) == Some("*")
  {
  }

  /** Division of a finite total by a zero-valued number gene, as IEEE 754 defines it. */
  lemma DivisionByZeroGene(g: Gene, a: real)
    requires g == Slash
    ensures a > 0.0 ==> Operate(g, Fin(a), Fin(GetFloatValue(0))) == PosInf
    ensures a < 0.0 ==> Operate(g, Fin(a), Fin(GetFloatValue(0))) == NegInf
    ensures a == 0.0 ==> Operate(g, Fin(a), Fin(GetFloatValue(0))) == NaN
  {
  }
}

/** `MathMod` exactly as the C# expression `(Math.Abs(a * b) + a) % b`
    evaluates on 32-bit `int`s in an unchecked context: the product and the
    sum wrap around, and `Math.Abs(int.MinValue)` throws. The widget itself
    uses the mathematical `ComboNext.MathMod`; this module shows where the two
    part ways. */
module Int32MathMod {
  import opened CSharpInt
  import opened ComboNextScript

  /** A 32-bit result, or the OverflowException `Math.Abs` throws. */
  datatype Int32Result = Value(v: int) | OverflowException

  function MathModAsWritten(a: int, b: int): (r: Int32Result)
    requires IsInt32(a) && IsInt32(b) && 0 < b
    ensures r.OverflowException? <==> Wrap32(a * b) == Int32Min
    ensures r.Value? ==> IsInt32(r.v) && -b < r.v < b
  {
    var product := Wrap32(a * b);
    if product == Int32Min then OverflowException
    else Value(Remainder(Wrap32(Abs(product) + a), b))
  }

  /** While neither the product nor the sum leaves the `int` range, the
      32-bit evaluation is the mathematical one. */
  lemma AsWrittenAgreesWithoutOverflow(a: int, b: int)
    requires IsInt32(a) && IsInt32(b) && 0 < b
    requires IsInt32(a * b) && a * b != Int32Min && IsInt32(Abs(a * b) + a)
    ensures MathModAsWritten(a, b) == Value(ComboNext.MathMod(a, b))
  {
  }

  /** An index of 1000000000 typed into the inspector for a three-member
      list: `a * b` wraps to -1294967296, the sum wraps to -2000000000, and
      the truncating `%` yields -2, an index below zero. The mathematical
      wrap-around gives 1. */
  lemma AsWrittenGoesNegative()
    ensures MathModAsWritten(1000000000, 3) == Value(-2)
    ensures ComboNext.MathMod(1000000000, 3) == 1
  {
    MathModIsFloorMod(1000000000, 3);
  }

  /** An index of -1073741824 typed into the inspector for a two-member
      list: `a * b` is exactly `int.MinValue`, so `Math.Abs` throws instead
      of returning an index. The mathematical wrap-around gives 0. */
  lemma AsWrittenThrows()
    ensures MathModAsWritten(-1073741824, 2) == OverflowException
    ensures ComboNext.MathMod(-1073741824, 2) == 0
  {
    MathModIsFloorMod(-1073741824, 2);
  }
}

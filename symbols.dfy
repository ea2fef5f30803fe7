/** The domain extended with the two symbolic infinities: equality, a total
    order, and sum/difference with their indeterminate forms.
    The domain value type is modelled as `real` (exact, no floating point). */
module Symbols {
  import opened Exceptions

  /** A domain value or one of the two sentinels.  The sentinels are the only
      symbolic values; everything else is an ordinary ("finite") value. */
  datatype XValue = NegInf | Fin(v: real) | PosInf

  /** Position of a value's kind in the order NegInf < finite < PosInf;
      used by the reference definition of the extended order. */
  function Rank(a: XValue): nat
  {
    match a
    case NegInf => 0
    case Fin(_) => 1
    case PosInf => 2
  }

  /** Reference strict order: kinds first, then the native order of reals. */
  predicate Below(a: XValue, b: XValue)
  {
    Rank(a) < Rank(b) || (a.Fin? && b.Fin? && a.v < b.v)
  }

  /** `is_symbol`: true exactly for the two infinities. */
  predicate IsSymbol(a: XValue)
    ensures IsSymbol(a) <==> !a.Fin?
  {
    a == PosInf || a == NegInf
  }

  /** `x_equals`: +inf equals only +inf, -inf only -inf, finite values
      compare natively; altogether this is plain equality of extended values. */
  function XEquals(a: XValue, b: XValue): (r: bool)
    ensures r <==> a == b
  {
    if a == PosInf then b == PosInf
    else if a == NegInf then b == NegInf
    else b.Fin? && a.v == b.v
  }

  /** `x_gt`: agrees with the reference order read backwards. */
  function XGt(a: XValue, b: XValue): (r: bool)
    ensures r <==> Below(b, a)
  {
    if a == PosInf then b != PosInf
    else if a == NegInf then false
    else if b == PosInf then false
    else if b == NegInf then true
    else a.v > b.v
  }

  /** `x_lt` is `x_gt` with its arguments swapped. */
  function XLt(a: XValue, b: XValue): (r: bool)
    ensures r <==> Below(a, b)
  {
    XGt(b, a)
  }

  /** `x_cmp`: 0 on equality, -1 when less, otherwise +1; by totality the
      last case is exactly "greater". */
  function XCmp(a: XValue, b: XValue): (r: int)
    ensures r == 0 <==> a == b
    ensures r == -1 <==> XLt(a, b)
    ensures r == 1 <==> XGt(a, b)
  {
    if XEquals(a, b) then 0
    else if XLt(a, b) then -1
    else 1
  }

  /** `x_ge`: equal or greater, which by totality is "not less". */
  function XGe(a: XValue, b: XValue): (r: bool)
    ensures r <==> !XLt(a, b)
  {
    XEquals(a, b) || XGt(a, b)
  }

  /** `x_le`: equal or less, which by totality is "not greater". */
  function XLe(a: XValue, b: XValue): (r: bool)
    ensures r <==> !XGt(a, b)
  {
    XEquals(a, b) || XLt(a, b)
  }

  /** -inf lies below every other value, +inf above every other value, and
      no value is greater than itself. */
  lemma InfinitiesAreExtremes(a: XValue)
    ensures a != NegInf ==> XGt(a, NegInf) && XLt(NegInf, a)
    ensures a != PosInf ==> XGt(PosInf, a) && XLt(a, PosInf)
    ensures !XGt(a, a) && !XLt(a, a)
  {
  }

  /** The extended order is a strict total order (what sorting with
      `x_cmp` relies on). */
  lemma StrictTotalOrder(a: XValue, b: XValue, c: XValue)
    ensures !XLt(a, a)
    ensures XLt(a, b) ==> !XLt(b, a)
    ensures XLt(a, b) && XLt(b, c) ==> XLt(a, c)
    ensures a != b ==> XLt(a, b) || XLt(b, a)
  {
  }

  /** `x_sum`: same-signed infinities and infinity-plus-finite give that
      infinity, opposite infinities are an indeterminate form, finite values
      are added by the metric's adder. */
  function XSum(a: XValue, b: XValue, adder: (real, real) -> real): (r: Result<XValue>)
    ensures r.Failure? <==> (a == PosInf && b == NegInf) || (a == NegInf && b == PosInf)
    ensures r.Failure? ==> r.error == IndeterminateForm
    ensures r.Success? && (a == PosInf || b == PosInf) ==> r.value == PosInf
    ensures r.Success? && (a == NegInf || b == NegInf) ==> r.value == NegInf
    ensures a.Fin? && b.Fin? ==> r == Success(Fin(adder(a.v, b.v)))
  {
    if a == PosInf then
      if b == PosInf then Success(PosInf)
      else if b == NegInf then Failure(IndeterminateForm)
      else Success(PosInf)
    else if a == NegInf then
      if b == PosInf then Failure(IndeterminateForm)
      else if b == NegInf then Success(NegInf)
      else Success(NegInf)
    else
      if b == PosInf then Success(PosInf)
      else if b == NegInf then Success(NegInf)
      else Success(Fin(adder(a.v, b.v)))
  }

  /** `x_subtract`: the difference of two equal infinities is an
      indeterminate form; otherwise an infinite minuend keeps its sign, an
      infinite subtrahend flips it, and finite values use the subtracter. */
  function XSubtract(a: XValue, b: XValue, subtracter: (real, real) -> real): (r: Result<XValue>)
    ensures r.Failure? <==> (a == b && IsSymbol(a))
    ensures r.Failure? ==> r.error == IndeterminateForm
    ensures r.Success? && (a == PosInf || b == NegInf) ==> r.value == PosInf
    ensures r.Success? && (a == NegInf || b == PosInf) ==> r.value == NegInf
    ensures a.Fin? && b.Fin? ==> r == Success(Fin(subtracter(a.v, b.v)))
  {
    if a == PosInf then
      if b == PosInf then Failure(IndeterminateForm)
      else if b == NegInf then Success(PosInf)
      else Success(PosInf)
    else if a == NegInf then
      if b == PosInf then Success(NegInf)
      else if b == NegInf then Failure(IndeterminateForm)
      else Success(NegInf)
    else
      if b == PosInf then Success(NegInf)
      else if b == NegInf then Success(PosInf)
      else Success(Fin(subtracter(a.v, b.v)))
  }

  /** Extended negation: swaps the infinities, negates finite values. */
  function XNegate(a: XValue): (r: XValue)
    ensures IsSymbol(r) <==> IsSymbol(a)
    ensures a.Fin? ==> r == Fin(-a.v)
  {
    match a
    case NegInf => PosInf
    case PosInf => NegInf
    case Fin(x) => Fin(-x)
  }

  /** With a commutative adder, the extended sum is commutative too, error
      cases included. */
  lemma SumCommutes(a: XValue, b: XValue, adder: (real, real) -> real)
    requires forall x: real, y: real :: adder(x, y) == adder(y, x)
    ensures XSum(a, b, adder) == XSum(b, a, adder)
  {
    if a.Fin? && b.Fin? {
      assert adder(a.v, b.v) == adder(b.v, a.v);
    }
  }

  /** The extended difference is the extended sum with the negated
      subtrahend, whenever the subtracter is "add the negation"; in
      particular its two indeterminate forms are exactly those of the sum. */
  lemma {:induction false} SubtractIsSumOfNegation(a: XValue, b: XValue,
                                                   adder: (real, real) -> real,
                                                   subtracter: (real, real) -> real)
    requires forall x: real, y: real :: subtracter(x, y) == adder(x, -y)
    ensures XSubtract(a, b, subtracter) == XSum(a, XNegate(b), adder)
  {
    if a.Fin? && b.Fin? {
      assert subtracter(a.v, b.v) == adder(a.v, -b.v);
    }
  }
}

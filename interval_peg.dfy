/** A peg: one interval boundary, an extended value plus whether the value
    itself is included. */
module Pegs {
  import opened Exceptions
  import opened Symbols

  datatype Peg = Peg(value: XValue, included: bool) {
    /** Infinities can never be included. */
    predicate Valid()
    {
      !(IsSymbol(value) && included)
    }
  }

  /** The validating constructor: an included infinity is rejected with
      InvalidValue, every other pair is stored unchanged. */
  function MakePeg(value: XValue, included: bool): (r: Result<Peg>)
    ensures r.Failure? <==> (value == PosInf || value == NegInf) && included
    ensures r.Failure? ==> r.error == InvalidValue
    ensures r.Success? ==> r.value.Valid() && r.value.value == value && r.value.included == included
  {
    if IsSymbol(value) && included then Failure(InvalidValue)
    else Success(Peg(value, included))
  }

  /** Peg equality (`__eq__`): values equal under `x_equals` and the same
      inclusion flag; this is structural equality, so (v, true) != (v, false). */
  function PegEquals(p: Peg, q: Peg): (r: bool)
    ensures r <==> p == q
  {
    if XEquals(p.value, q.value) then p.included == q.included
    else false
  }

  /** Peg equality is reflexive and symmetric. */
  lemma PegEqualsIsEquivalence(p: Peg, q: Peg)
    ensures PegEquals(p, p)
    ensures PegEquals(p, q) == PegEquals(q, p)
    ensures PegEquals(Peg(p.value, true), Peg(p.value, false)) == false
  {
  }
}

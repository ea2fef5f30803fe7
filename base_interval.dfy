/** A single interval between two pegs: validation, equality, membership
    and metric extension. */
module Intervals {
  import opened Exceptions
  import opened Symbols
  import opened Pegs

  /** The additive structure that lets a domain measure its intervals:
      a zero, an adder and a subtracter over domain values. */
  datatype Metric = Metric(zero: real, adder: (real, real) -> real, subtracter: (real, real) -> real)

  /** The metric of the real-number domain: 0, + and -. */
  const RealMetric: Metric := Metric(0.0, (x: real, y: real) => x + y, (x: real, y: real) => x - y)

  datatype Interval = Interval(begin: Peg, end: Peg) {
    /** The constructor's rules: both pegs valid, begin not after end, and a
        point-like interval closed on both sides. */
    predicate Valid()
    {
      && begin.Valid() && end.Valid()
      && XLe(begin.value, end.value)
      && (begin.value == end.value ==> begin.included && end.included)
    }
  }

  /** The validating constructor: begin after end, a point-like interval with
      mixed flags, or an open point-like interval are rejected with
      InvalidValue; anything else is stored unchanged. */
  function MakeInterval(begin: Peg, end: Peg): (r: Result<Interval>)
    ensures begin.Valid() && end.Valid() ==> (r.Success? <==> Interval(begin, end).Valid())
    ensures r.Failure? ==> r.error == InvalidValue
    ensures r.Success? ==> r.value == Interval(begin, end)
  {
    if XGt(begin.value, end.value) then Failure(InvalidValue)
    else if XEquals(begin.value, end.value) && begin.included != end.included then Failure(InvalidValue)
    else if XEquals(begin.value, end.value) && !begin.included && !end.included then Failure(InvalidValue)
    else Success(Interval(begin, end))
  }

  /** Interval equality (`__eq__`): both pegs equal. */
  function IntervalEquals(a: Interval, b: Interval): (r: bool)
    ensures r <==> a == b
  {
    PegEquals(a.begin, b.begin) && PegEquals(a.end, b.end)
  }

  /** `contains`: an infinity is never contained; a finite value is contained
      when it lies above the begin (or on it, if the begin is included) and
      below the end (or on it, if the end is included). */
  function Contains(i: Interval, x: XValue): (r: bool)
    ensures r ==> x.Fin?
    ensures i.Valid() ==>
      (r <==> x.Fin?
              && (XLt(i.begin.value, x) || (x == i.begin.value && i.begin.included))
              && (XLt(x, i.end.value) || (x == i.end.value && i.end.included)))
  {
    if IsSymbol(x) then false
    else if XLt(i.begin.value, x) then
      if XLt(x, i.end.value) then true
      else if XEquals(i.end.value, x) then i.end.included
      else false
    else
      if XEquals(i.begin.value, x) then i.begin.included
      else false
  }

  /** The degenerate interval [v, v] contains v and nothing else. */
  lemma PointContainsOnlyItself(v: real, x: XValue)
    ensures Interval(Peg(Fin(v), true), Peg(Fin(v), true)).Valid()
    ensures Contains(Interval(Peg(Fin(v), true), Peg(Fin(v), true)), x) <==> x == Fin(v)
  {
  }

  /** `extension`: end minus begin under the metric's subtracter; without a
      metric it fails with MetricNotImplemented.  For a valid interval it
      never fails and is never -inf, and it is +inf when the interval is
      unbounded on either side. */
  function Extension(i: Interval, metric: Option<Metric>): (r: Result<XValue>)
    ensures metric.None? ==> r == Failure(MetricNotImplemented)
    ensures metric.Some? && i.Valid() ==> r.Success? && r.value != NegInf
    ensures metric.Some? && i.Valid() && (i.begin.value == NegInf || i.end.value == PosInf) ==> r == Success(PosInf)
    ensures metric.Some? && i.begin.value.Fin? && i.end.value.Fin? ==>
              r == Success(Fin(metric.value.subtracter(i.end.value.v, i.begin.value.v)))
  {
    if metric.Some? then XSubtract(i.end.value, i.begin.value, metric.value.subtracter)
    else Failure(MetricNotImplemented)
  }

  /** `pegs`: the two ends, begin first; for a valid interval both are valid
      pegs and come in order. */
  function PegsOf(i: Interval): (r: seq<Peg>)
    ensures |r| == 2 && r[0] == i.begin && r[1] == i.end
    ensures i.Valid() ==> r[0].Valid() && r[1].Valid() && XLe(r[0].value, r[1].value)
  {
    [i.begin, i.end]
  }

  /** The pegs bound the interval: every contained value lies between the
      two peg values, and a peg value is contained exactly when its peg is
      included. */
  lemma PegsBoundContents(i: Interval, x: XValue)
    requires i.Valid()
    ensures Contains(i, x) ==> XLe(PegsOf(i)[0].value, x) && XLe(x, PegsOf(i)[1].value)
    ensures x.Fin? && x == PegsOf(i)[0].value ==> (Contains(i, x) <==> PegsOf(i)[0].included)
    ensures x.Fin? && x == PegsOf(i)[1].value ==> (Contains(i, x) <==> PegsOf(i)[1].included)
  {
  }

  /** Some interval of the list contains the value. */
  predicate Covers(list: seq<Interval>, x: XValue)
  {
    exists k :: 0 <= k < |list| && Contains(list[k], x)
  }

  /** Appending an interval to a list adds exactly its points. */
  lemma CoversAppend(list: seq<Interval>, i: Interval, x: XValue)
    ensures Covers(list + [i], x) <==> Covers(list, x) || Contains(i, x)
  {
    var l := list + [i];
    assert l[|list|] == i;
    assert forall k :: 0 <= k < |list| ==> l[k] == list[k];
  }

  /** `intervals` of a bare interval: the one-element list, which covers
      exactly what the interval contains (so an interval can stand where a
      set operand is expected). */
  function IntervalsOf(i: Interval): (r: seq<Interval>)
    ensures forall x :: Covers(r, x) <==> Contains(i, x)
    ensures i.Valid() ==> forall k :: 0 <= k < |r| ==> r[k].Valid()
  {
    var r := [i];
    assert forall x :: Contains(r[0], x) == Contains(i, x);
    r
  }

  /** Every interval of the list is valid. */
  predicate AllValid(list: seq<Interval>)
  {
    forall k :: 0 <= k < |list| ==> list[k].Valid()
  }

  /** The interval between two extended values with the given flags; a
      shorthand for writing intervals down. */
  function Span(a: XValue, ai: bool, b: XValue, bi: bool): Interval
  {
    Interval(Peg(a, ai), Peg(b, bi))
  }

  /** The whole line (-inf, +inf), the one interval of the `all()` set. */
  const Whole: Interval := Span(NegInf, false, PosInf, false)
}

/** Interval sets: a list of intervals kept in normal form, with membership,
    metric extension, equality and the set algebra, every operation going
    through the combine engine. */
module IntervalSets {
  import opened Exceptions
  import opened Symbols
  import opened Pegs
  import opened Intervals
  import opened NormalForm
  import opened IntervalOperations

  /** The one-interval-per-run normal form the constructor establishes. */
  datatype IntervalSet = IntervalSet(intervals: seq<Interval>) {
    predicate Valid()
    {
      Canonical(intervals)
    }

    /** `contains`: some member interval contains the value; in particular
        no infinity belongs to any set. */
    function Contains(x: XValue): (r: bool)
      ensures r ==> x.Fin?
      ensures r <==> Covers(intervals, x)
    {
      AnyContains(intervals, x)
    }

    /** `extension`: the metric's extended sum of the member extensions,
        seeded at the metric's zero; without a metric it fails with
        MetricNotImplemented.  For a set in normal form it never fails, is
        never -inf, and is +inf exactly when some member is unbounded; under
        the real metric a bounded set measures the sum of its lengths. */
    function Extension(metric: Option<Metric>): (r: Result<XValue>)
      ensures metric.None? ==> r == Failure(MetricNotImplemented)
      ensures metric.Some? && Valid() ==> r.Success? && r.value != NegInf
      ensures metric.Some? && Valid() ==>
                (r.value == PosInf <==> exists k :: 0 <= k < |intervals| && Unbounded(intervals[k]))
      ensures metric == Some(RealMetric) && Valid() && (forall k :: 0 <= k < |intervals| ==> !Unbounded(intervals[k])) ==>
                r == Success(Fin(TotalLength(intervals)))
    {
      BoundedRealExtension(intervals);
      if metric.Some? then SumExtensions(intervals, Fin(metric.value.zero), metric.value)
      else Failure(MetricNotImplemented)
    }

    /** `__eq__`: same length and the same intervals, one by one. */
    function Equals(other: IntervalSet): (r: bool)
      ensures r <==> this == other
    {
      |intervals| == |other.intervals| && intervals == other.intervals
    }
  }

  /** The second operand of a binary set operation: another set or a bare
      interval, of which only `intervals()` is used. */
  datatype Operand = SetOperand(s: IntervalSet) | IntervalOperand(i: Interval) {
    predicate Valid()
    {
      match this
      case SetOperand(s) => s.Valid()
      case IntervalOperand(i) => i.Valid()
    }

    /** The operand's `intervals()`: a set's members, or a bare interval as a
        one-element list. */
    function Members(): (r: seq<Interval>)
      ensures Valid() ==> AllValid(r)
      ensures forall x :: Covers(r, x) <==> Contains(x)
    {
      match this
      case SetOperand(s) => s.intervals
      case IntervalOperand(i) => IntervalsOf(i)
    }

    /** Membership in the operand, as a set or as an interval. */
    predicate Contains(x: XValue)
    {
      match this
      case SetOperand(s) => s.Contains(x)
      case IntervalOperand(i) => Intervals.Contains(i, x)
    }
  }

  /** Python's `any` over the members' `contains`. */
  function AnyContains(list: seq<Interval>, x: XValue): (r: bool)
    ensures r <==> Covers(list, x)
    decreases |list|
  {
    if |list| == 0 then false
    else
      CoversCons(list, x);
      Intervals.Contains(list[0], x) || AnyContains(list[1..], x)
  }

  /** The interval reaches an infinity on one side. */
  predicate Unbounded(i: Interval)
  {
    i.begin.value == NegInf || i.end.value == PosInf
  }

  /** The `reduce` of the extended sum over the member extensions, from the
      accumulator `acc`.  Valid members never make it fail or reach -inf,
      and the total is +inf exactly when the seed or some member is
      unbounded. */
  function SumExtensions(list: seq<Interval>, acc: XValue, metric: Metric): (r: Result<XValue>)
    ensures AllValid(list) && acc != NegInf ==> r.Success? && r.value != NegInf
    ensures AllValid(list) && acc != NegInf ==>
              (r.value == PosInf <==> acc == PosInf || exists k :: 0 <= k < |list| && Unbounded(list[k]))
    decreases |list|
  {
    if |list| == 0 then Success(acc)
    else
      var e :- Intervals.Extension(list[0], Some(metric));
      var sum :- XSum(acc, e, metric.adder);
      assert forall k :: 1 <= k < |list| ==> list[1..][k - 1] == list[k];
      SumExtensions(list[1..], sum, metric)
  }

  /** The length of a bounded interval (0 for an unbounded one). */
  function Length(i: Interval): real
  {
    if i.begin.value.Fin? && i.end.value.Fin? then i.end.value.v - i.begin.value.v else 0.0
  }

  /** Reference definition: the plain sum of the member lengths. */
  function TotalLength(list: seq<Interval>): real
  {
    if |list| == 0 then 0.0 else Length(list[0]) + TotalLength(list[1..])
  }

  /** Under the real metric, the extension fold of bounded valid intervals
      is the seed plus the sum of their lengths. */
  lemma {:induction false} RealExtensionIsTotalLength(list: seq<Interval>, acc: real)
    requires AllValid(list) && forall k :: 0 <= k < |list| ==> !Unbounded(list[k])
    ensures SumExtensions(list, Fin(acc), RealMetric) == Success(Fin(acc + TotalLength(list)))
    decreases |list|
  {
    if |list| > 0 {
      var i := list[0];
      assert i.Valid() && !Unbounded(i);
      var next := acc + (i.end.value.v - i.begin.value.v);
      assert XSum(Fin(acc), Fin(i.end.value.v - i.begin.value.v), RealMetric.adder) == Success(Fin(next));
      assert forall k :: 1 <= k < |list| ==> list[1..][k - 1] == list[k];
      RealExtensionIsTotalLength(list[1..], next);
    }
  }

  /** `RealExtensionIsTotalLength` from the metric's zero, for any list. */
  lemma BoundedRealExtension(list: seq<Interval>)
    ensures AllValid(list) && (forall k :: 0 <= k < |list| ==> !Unbounded(list[k])) ==>
              SumExtensions(list, Fin(0.0), RealMetric) == Success(Fin(TotalLength(list)))
  {
    if AllValid(list) && forall k :: 0 <= k < |list| ==> !Unbounded(list[k]) {
      RealExtensionIsTotalLength(list, 0.0);
    }
  }

  // ---------------------------------------------------------------------
  // Construction and the set algebra.
  // ---------------------------------------------------------------------

  /** The default combiner: membership in the only operand. */
  function First(q: seq<bool>): bool
  {
    |q| > 0 && q[0]
  }

  /** The union combiner. */
  function Either(q: seq<bool>): bool
  {
    |q| == 2 && (q[0] || q[1])
  }

  /** The difference combiner. */
  function OnlyFirst(q: seq<bool>): bool
  {
    |q| == 2 && q[0] && !q[1]
  }

  /** The intersection combiner. */
  function Both(q: seq<bool>): bool
  {
    |q| == 2 && q[0] && q[1]
  }

  /** The exclusive-or combiner. */
  function ExactlyOne(q: seq<bool>): bool
  {
    |q| == 2 && q[0] != q[1]
  }

  /** The constructor with `_normalize`: the single-list combine with the
      identity combiner.  The set holds exactly the values of the input, and
      an input already in normal form is kept as it is. */
  method NewIntervalSet(intervals: seq<Interval>) returns (s: IntervalSet)
    requires AllValid(intervals)
    ensures s.Valid()
    ensures forall x :: s.Contains(x) <==> Covers(intervals, x)
    ensures Canonical(intervals) ==> s.intervals == intervals
  {
    var combined := CombineIntervals([intervals], First);
    s := IntervalSet(combined.value);
    forall x: real
      ensures Covers(s.intervals, Fin(x)) <==> Covers(intervals, Fin(x))
    {
      assert Memberships([intervals], Fin(x))[0] == Covers(intervals, Fin(x));
    }
    if Canonical(intervals) {
      SamePointsSameList(s.intervals, intervals);
    }
  }

  /** Two-operand combine followed by the constructor, the shape shared by
      the four binary operations. */
  method CombineTwo(s: IntervalSet, other: Operand, f: seq<bool> -> bool) returns (r: IntervalSet)
    requires s.Valid() && other.Valid()
    requires !f([false, false])
    ensures r.Valid()
    ensures forall x: real :: r.Contains(Fin(x)) <==> f([s.Contains(Fin(x)), other.Contains(Fin(x))])
  {
    var lists := [s.intervals, other.Members()];
    assert NoneIn(2) == [false, false];
    var combined := CombineIntervals(lists, f);
    r := NewIntervalSet(combined.value);
    forall x: real
      ensures Memberships(lists, Fin(x)) == [s.Contains(Fin(x)), other.Contains(Fin(x))]
    {
    }
  }

  /** `union`: a value is in the result iff it is in either operand. */
  method Union(s: IntervalSet, other: Operand) returns (r: IntervalSet)
    requires s.Valid() && other.Valid()
    ensures r.Valid()
    ensures forall x :: r.Contains(x) <==> s.Contains(x) || other.Contains(x)
  {
    r := CombineTwo(s, other, Either);
  }

  /** `difference`: a value is in the result iff it is in `s` and not in
      the other operand. */
  method Difference(s: IntervalSet, other: Operand) returns (r: IntervalSet)
    requires s.Valid() && other.Valid()
    ensures r.Valid()
    ensures forall x :: r.Contains(x) <==> s.Contains(x) && !other.Contains(x)
  {
    r := CombineTwo(s, other, OnlyFirst);
  }

  /** `intersect`: a value is in the result iff it is in both operands. */
  method Intersect(s: IntervalSet, other: Operand) returns (r: IntervalSet)
    requires s.Valid() && other.Valid()
    ensures r.Valid()
    ensures forall x :: r.Contains(x) <==> s.Contains(x) && other.Contains(x)
  {
    r := CombineTwo(s, other, Both);
  }

  /** `xor`: a value is in the result iff it is in exactly one operand. */
  method Xor(s: IntervalSet, other: Operand) returns (r: IntervalSet)
    requires s.Valid() && other.Valid()
    ensures r.Valid()
    ensures forall x :: r.Contains(x) <==> s.Contains(x) != other.Contains(x)
  {
    r := CombineTwo(s, other, ExactlyOne);
  }

  /** `all()`: the set of the whole line (-inf, +inf). */
  method AllSet() returns (s: IntervalSet)
    ensures s.Valid() && s.intervals == [Whole]
    ensures forall x: real :: s.Contains(Fin(x))
  {
    s := NewIntervalSet([Whole]);
    assert Canonical([Whole]);
  }

  /** `empty()`: the set with no intervals. */
  method EmptySet() returns (s: IntervalSet)
    ensures s.Valid() && s.intervals == []
    ensures forall x :: !s.Contains(x)
  {
    s := NewIntervalSet([]);
  }

  /** `complement`: the whole line minus the set; a finite value is in the
      result iff it is not in `s`. */
  method Complement(s: IntervalSet) returns (r: IntervalSet)
    requires s.Valid()
    ensures r.Valid()
    ensures forall x: real :: r.Contains(Fin(x)) <==> !s.Contains(Fin(x))
  {
    var all := AllSet();
    r := Difference(all, SetOperand(s));
  }

  /** Sets in normal form are equal exactly when they hold the same values. */
  lemma EqualIffSamePoints(a: IntervalSet, b: IntervalSet)
    requires a.Valid() && b.Valid()
    ensures a == b <==> forall x :: a.Contains(x) <==> b.Contains(x)
  {
    if forall x :: a.Contains(x) <==> b.Contains(x) {
      forall x: real
        ensures Covers(a.intervals, Fin(x)) <==> Covers(b.intervals, Fin(x))
      {
        assert a.Contains(Fin(x)) <==> b.Contains(Fin(x));
      }
      SamePointsSameList(a.intervals, b.intervals);
    }
  }

  /** `superset_of`: `other - s` equals the empty set, which holds exactly
      when every value of `other` is a value of `s`. */
  method SupersetOf(s: IntervalSet, other: IntervalSet) returns (r: bool)
    requires s.Valid() && other.Valid()
    ensures r <==> forall x :: other.Contains(x) ==> s.Contains(x)
  {
    var rest := Difference(other, SetOperand(s));
    var empty := EmptySet();
    r := rest.Equals(empty);
    EqualIffSamePoints(rest, empty);
  }
}

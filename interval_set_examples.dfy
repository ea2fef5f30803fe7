/** Worked examples over the reals: the inputs of the library's own test
    vectors, with the exact normal forms, memberships and extensions that
    the operations are proved to produce on them. */
module IntervalSetExamples {
  import opened Exceptions
  import opened Symbols
  import opened Intervals
  import opened NormalForm
  import opened IntervalSets
  import opened IntervalSetLaws

  /** (a, b) */
  function Open(a: real, b: real): Interval
  {
    Span(Fin(a), false, Fin(b), false)
  }

  /** [a, b] */
  function Closed(a: real, b: real): Interval
  {
    Span(Fin(a), true, Fin(b), true)
  }

  /** [v, v] */
  function Point(v: real): Interval
  {
    Closed(v, v)
  }

  /** From a value up to +inf, the value included or not. */
  function HighSlice(a: real, included: bool): Interval
  {
    Span(Fin(a), included, PosInf, false)
  }

  /** From -inf up to a value, the value included or not. */
  function LowSlice(b: real, included: bool): Interval
  {
    Span(NegInf, false, Fin(b), included)
  }

  /** Membership in a one-interval list, spelt out. */
  lemma Covers1(list: seq<Interval>, x: XValue)
    requires |list| == 1
    ensures Covers(list, x) <==> Contains(list[0], x)
  {
    if Contains(list[0], x) {
      assert Contains(list[0], x);
    }
  }

  /** Membership in a two-interval list, spelt out. */
  lemma Covers2(list: seq<Interval>, x: XValue)
    requires |list| == 2
    ensures Covers(list, x) <==> Contains(list[0], x) || Contains(list[1], x)
  {
    if Contains(list[0], x) || Contains(list[1], x) {
      var k := if Contains(list[0], x) then 0 else 1;
      assert Contains(list[k], x);
    }
  }

  /** Membership in a three-interval list, spelt out. */
  lemma Covers3(list: seq<Interval>, x: XValue)
    requires |list| == 3
    ensures Covers(list, x) <==> Contains(list[0], x) || Contains(list[1], x) || Contains(list[2], x)
  {
    if Contains(list[0], x) || Contains(list[1], x) || Contains(list[2], x) {
      var k := if Contains(list[0], x) then 0 else if Contains(list[1], x) then 1 else 2;
      assert Contains(list[k], x);
    }
  }

  /** Membership in a four-interval list, spelt out. */
  lemma Covers4(list: seq<Interval>, x: XValue)
    requires |list| == 4
    ensures Covers(list, x) <==> Contains(list[0], x) || Contains(list[1], x) || Contains(list[2], x)
                                 || Contains(list[3], x)
  {
    if Contains(list[0], x) || Contains(list[1], x) || Contains(list[2], x) || Contains(list[3], x) {
      var k := if Contains(list[0], x) then 0 else if Contains(list[1], x) then 1
               else if Contains(list[2], x) then 2 else 3;
      assert Contains(list[k], x);
    }
  }

  /** Membership in a five-interval list, spelt out. */
  lemma Covers5(list: seq<Interval>, x: XValue)
    requires |list| == 5
    ensures Covers(list, x) <==> Contains(list[0], x) || Contains(list[1], x) || Contains(list[2], x)
                                 || Contains(list[3], x) || Contains(list[4], x)
  {
    if Contains(list[0], x) || Contains(list[1], x) || Contains(list[2], x) || Contains(list[3], x)
       || Contains(list[4], x) {
      var k := if Contains(list[0], x) then 0 else if Contains(list[1], x) then 1
               else if Contains(list[2], x) then 2 else if Contains(list[3], x) then 3 else 4;
      assert Contains(list[k], x);
    }
  }

  // ---------------------------------------------------------------------
  // The lists of the examples.
  // ---------------------------------------------------------------------

  /** (11,13), [10,12], (15,+inf), (13,14] */
  const Input1: seq<Interval> := [Open(11.0, 13.0), Closed(10.0, 12.0), HighSlice(15.0, false),
                                  Span(Fin(13.0), false, Fin(14.0), true)]

  /** [10,13), (13,14], (15,+inf) */
  const Expected1: seq<Interval> := [Span(Fin(10.0), true, Fin(13.0), false), Span(Fin(13.0), false, Fin(14.0), true),
                                     HighSlice(15.0, false)]

  /** (10,11), [12,13], [8,8], (11,12) */
  const Input2: seq<Interval> := [Open(10.0, 11.0), Closed(12.0, 13.0), Point(8.0), Open(11.0, 12.0)]

  /** [8,8], (10,11), (11,13] */
  const Expected2: seq<Interval> := [Point(8.0), Open(10.0, 11.0), Span(Fin(11.0), false, Fin(13.0), true)]

  /** [8,8], [10,14], (15,+inf) */
  const ExpectedUnion: seq<Interval> := [Point(8.0), Closed(10.0, 14.0), HighSlice(15.0, false)]

  /** (-inf,-4), [-3,-1], [2,3) */
  const XorLeft: seq<Interval> := [LowSlice(-4.0, false), Closed(-3.0, -1.0), Span(Fin(2.0), true, Fin(3.0), false)]

  /** [-5,-2), (-1,2], (3,+inf) */
  const XorRight: seq<Interval> := [Span(Fin(-5.0), true, Fin(-2.0), false), Span(Fin(-1.0), false, Fin(2.0), true),
                                    HighSlice(3.0, false)]

  /** (-inf,-5), [-4,-3), [-2,2), (2,3), (3,+inf) */
  const XorExpected: seq<Interval> := [LowSlice(-5.0, false), Span(Fin(-4.0), true, Fin(-3.0), false),
                                       Span(Fin(-2.0), true, Fin(2.0), false), Open(2.0, 3.0), HighSlice(3.0, false)]

  /** [-4,-3), (-1,2), [3,+inf) */
  const ComplementExpected: seq<Interval> := [Span(Fin(-4.0), true, Fin(-3.0), false), Open(-1.0, 2.0),
                                              HighSlice(3.0, true)]

  /** [0,2), (1,5], (100,150), [1000,1500] */
  const MetricInput: seq<Interval> := [Span(Fin(0.0), true, Fin(2.0), false), Span(Fin(1.0), false, Fin(5.0), true),
                                       Open(100.0, 150.0), Closed(1000.0, 1500.0)]

  /** [0,5], (100,150), [1000,1500] */
  const MetricNormal: seq<Interval> := [Closed(0.0, 5.0), Open(100.0, 150.0), Closed(1000.0, 1500.0)]

  /** (-2,-1], [1,2) */
  const DifferenceExpected: seq<Interval> := [Span(Fin(-2.0), false, Fin(-1.0), true),
                                              Span(Fin(1.0), true, Fin(2.0), false)]

  /** (-2,-1), (1,+inf) */
  const HybridLeft: seq<Interval> := [Open(-2.0, -1.0), HighSlice(1.0, false)]

  /** (-2,+inf) */
  const HybridExpected: seq<Interval> := [Span(Fin(-2.0), false, PosInf, false)]

  /** The inputs are lists of valid intervals. */
  lemma InputsValid()
    ensures AllValid(Input1) && AllValid(Input2) && AllValid(MetricInput)
  {
  }

  /** The expected results of the normalisation examples are in normal form. */
  lemma NormalizedCanonical()
    ensures Canonical(Expected1) && Canonical(Expected2) && Canonical(ExpectedUnion)
  {
    var l := Expected1;
    assert Apart(l[0].end, l[1].begin) && Apart(l[1].end, l[2].begin);
    l := Expected2;
    assert Apart(l[0].end, l[1].begin) && Apart(l[1].end, l[2].begin);
  }

  /** The operands and expected results of the exclusive-or and complement
      examples are in normal form. */
  lemma XorListsCanonical()
    ensures Canonical(XorLeft) && Canonical(XorRight) && Canonical(ComplementExpected)
  {
    var l := ComplementExpected;
    assert l[0].Valid() && l[1].Valid() && l[2].Valid();
    assert Apart(l[0].end, l[1].begin) && Apart(l[1].end, l[2].begin);
  }

  /** The expected exclusive or is in normal form. */
  lemma XorExpectedCanonical()
    ensures Canonical(XorExpected)
  {
    var l := XorExpected;
    assert l[0].Valid() && l[1].Valid() && l[2].Valid() && l[3].Valid() && l[4].Valid();
  }

  /** The remaining expected results are in normal form. */
  lemma OtherListsCanonical()
    ensures Canonical(MetricNormal) && Canonical(DifferenceExpected)
    ensures Canonical(HybridLeft) && Canonical(HybridExpected)
  {
  }

  // ---------------------------------------------------------------------
  // Pointwise facts about the lists.
  // ---------------------------------------------------------------------

  /** The first input and its normal form hold the same values. */
  lemma Pointwise1(x: real)
    ensures Covers(Input1, Fin(x)) <==> Covers(Expected1, Fin(x))
  {
    Covers4(Input1, Fin(x));
    Covers3(Expected1, Fin(x));
  }

  /** The second input and its normal form hold the same values. */
  lemma Pointwise2(x: real)
    ensures Covers(Input2, Fin(x)) <==> Covers(Expected2, Fin(x))
  {
    Covers4(Input2, Fin(x));
    Covers3(Expected2, Fin(x));
  }

  /** The expected union holds the values of either normal form. */
  lemma UnionPointwise(x: real)
    ensures Covers(ExpectedUnion, Fin(x)) <==> Covers(Expected1, Fin(x)) || Covers(Expected2, Fin(x))
  {
    Covers3(Expected1, Fin(x));
    Covers3(Expected2, Fin(x));
    Covers3(ExpectedUnion, Fin(x));
  }

  /** The expected exclusive or holds the values in exactly one operand. */
  lemma XorPointwise(x: real)
    ensures Covers(XorExpected, Fin(x)) <==> (Covers(XorLeft, Fin(x)) != Covers(XorRight, Fin(x)))
  {
    Covers3(XorLeft, Fin(x));
    Covers3(XorRight, Fin(x));
    Covers5(XorExpected, Fin(x));
  }

  /** The expected complement holds the values the left operand lacks. */
  lemma ComplementPointwise(x: real)
    ensures Covers(ComplementExpected, Fin(x)) <==> !Covers(XorLeft, Fin(x))
  {
    Covers3(XorLeft, Fin(x));
    Covers3(ComplementExpected, Fin(x));
  }

  /** The overlapping metric input and its normal form hold the same values. */
  lemma MetricPointwise(x: real)
    ensures Covers(MetricNormal, Fin(x)) <==> Covers(MetricInput, Fin(x))
  {
    Covers4(MetricInput, Fin(x));
    Covers3(MetricNormal, Fin(x));
  }

  /** (-2,2) minus (-1,1) is (-2,-1] + [1,2), value by value. */
  lemma DifferencePointwise(x: real)
    ensures Covers(DifferenceExpected, Fin(x)) <==>
              Covers([Open(-2.0, 2.0)], Fin(x)) && !Covers([Open(-1.0, 1.0)], Fin(x))
  {
    Covers1([Open(-2.0, 2.0)], Fin(x));
    Covers1([Open(-1.0, 1.0)], Fin(x));
    Covers2(DifferenceExpected, Fin(x));
  }

  /** (-2,-1) + (1,+inf) together with [-1,1] is (-2,+inf), value by value. */
  lemma HybridPointwise(x: real)
    ensures Covers(HybridExpected, Fin(x)) <==> Covers(HybridLeft, Fin(x)) || Contains(Closed(-1.0, 1.0), Fin(x))
  {
    Covers2(HybridLeft, Fin(x));
    Covers1(HybridExpected, Fin(x));
  }

  /** (11,12) and [14,14] + [17,19] lie inside [10,13) + (13,14] + (15,+inf),
      and 13 does not. */
  lemma InsideFirst(x: real)
    ensures Covers([Open(11.0, 12.0)], Fin(x)) ==> Covers(Expected1, Fin(x))
    ensures Covers([Point(14.0), Closed(17.0, 19.0)], Fin(x)) ==> Covers(Expected1, Fin(x))
    ensures !Covers(Expected1, Fin(13.0))
  {
    Covers1([Open(11.0, 12.0)], Fin(x));
    Covers2([Point(14.0), Closed(17.0, 19.0)], Fin(x));
    Covers3(Expected1, Fin(x));
    Covers3(Expected1, Fin(13.0));
  }

  // ---------------------------------------------------------------------
  // The examples.
  // ---------------------------------------------------------------------

  /** (11,13), [10,12], (15,+inf), (13,14] normalise to
      [10,13), (13,14], (15,+inf). */
  method NormalizeFirst() returns (s: IntervalSet)
    ensures s.intervals == Expected1
  {
    InputsValid();
    s := NewIntervalSet(Input1);
    NormalizedCanonical();
    forall x: real
      ensures s.Contains(Fin(x)) <==> IntervalSet(Expected1).Contains(Fin(x))
    {
      Pointwise1(x);
    }
    EqualIffSamePoints(s, IntervalSet(Expected1));
  }

  /** (10,11), [12,13], [8,8], (11,12) normalise to [8,8], (10,11), (11,13]:
      the excluded 11 keeps (10,11) and (11,13] apart. */
  method NormalizeSecond() returns (s: IntervalSet)
    ensures s.intervals == Expected2
  {
    InputsValid();
    s := NewIntervalSet(Input2);
    NormalizedCanonical();
    forall x: real
      ensures s.Contains(Fin(x)) <==> IntervalSet(Expected2).Contains(Fin(x))
    {
      Pointwise2(x);
    }
    EqualIffSamePoints(s, IntervalSet(Expected2));
  }

  /** Any set in normal form holding the values of either normal form above
      is [8,8], [10,14], (15,+inf). */
  lemma UnionResult(a: IntervalSet, b: IntervalSet, r: IntervalSet)
    requires a.intervals == Expected1 && b.intervals == Expected2 && r.Valid()
    requires forall x :: r.Contains(x) <==> a.Contains(x) || b.Contains(x)
    ensures r.intervals == ExpectedUnion
  {
    NormalizedCanonical();
    forall x: real
      ensures r.Contains(Fin(x)) <==> IntervalSet(ExpectedUnion).Contains(Fin(x))
    {
      UnionPointwise(x);
    }
    EqualIffSamePoints(r, IntervalSet(ExpectedUnion));
  }

  /** The union of the two sets above, in either order, is
      [8,8], [10,14], (15,+inf). */
  method UnionOfBoth() returns (ab: IntervalSet, ba: IntervalSet)
    ensures ab.intervals == ExpectedUnion
    ensures ba == ab
  {
    var a := NormalizeFirst();
    var b := NormalizeSecond();
    ab := Union(a, SetOperand(b));
    UnionResult(a, b, ab);
    ba := Union(b, SetOperand(a));
    UnionResult(a, b, ba);
  }

  /** The operands of the exclusive-or example, both already in normal form. */
  method XorOperands() returns (a: IntervalSet, b: IntervalSet)
    ensures a.intervals == XorLeft && b.intervals == XorRight
  {
    XorListsCanonical();
    a := NewIntervalSet(XorLeft);
    b := NewIntervalSet(XorRight);
  }

  /** Any set in normal form holding the values in exactly one of the two
      operands is (-inf,-5), [-4,-3), [-2,2), (2,3), (3,+inf). */
  lemma XorResult(a: IntervalSet, b: IntervalSet, r: IntervalSet)
    requires a.intervals == XorLeft && b.intervals == XorRight && r.Valid()
    requires forall x :: r.Contains(x) <==> a.Contains(x) != b.Contains(x)
    ensures r.intervals == XorExpected
  {
    XorExpectedCanonical();
    forall x: real
      ensures r.Contains(Fin(x)) <==> IntervalSet(XorExpected).Contains(Fin(x))
    {
      XorPointwise(x);
    }
    EqualIffSamePoints(r, IntervalSet(XorExpected));
  }

  /** The exclusive or of the two operands above, in either order, is
      (-inf,-5), [-4,-3), [-2,2), (2,3), (3,+inf). */
  method XorOfBoth() returns (ab: IntervalSet, ba: IntervalSet)
    ensures ab.intervals == XorExpected
    ensures ba == ab
  {
    var a, b := XorOperands();
    ab := Xor(a, SetOperand(b));
    XorResult(a, b, ab);
    ba := Xor(b, SetOperand(a));
    XorResult(a, b, ba);
  }

  /** The complement of (-inf,-4), [-3,-1], [2,3) is
      [-4,-3), (-1,2), [3,+inf). */
  method ComplementExample() returns (c: IntervalSet)
    ensures c.intervals == ComplementExpected
  {
    var a, _ := XorOperands();
    c := Complement(a);
    XorListsCanonical();
    forall x: real
      ensures c.Contains(Fin(x)) <==> IntervalSet(ComplementExpected).Contains(Fin(x))
    {
      ComplementPointwise(x);
    }
    EqualIffSamePoints(c, IntervalSet(ComplementExpected));
  }

  /** The real-metric extension of [0,2) + (1,5] + (100,150) + [1000,1500]
      is 555: the overlap of the first two counts once.  The set is built by
      normalising the four intervals together rather than by a chain of
      unions; both give the one set in normal form holding those values. */
  method ExtensionExample() returns (e: Result<XValue>)
    ensures e == Success(Fin(555.0))
  {
    InputsValid();
    var s := NewIntervalSet(MetricInput);
    OtherListsCanonical();
    forall x: real
      ensures s.Contains(Fin(x)) <==> IntervalSet(MetricNormal).Contains(Fin(x))
    {
      MetricPointwise(x);
    }
    EqualIffSamePoints(s, IntervalSet(MetricNormal));
    e := s.Extension(Some(RealMetric));
    MetricNormalLength();
  }

  /** The extension fold over [0,5], (100,150), [1000,1500] is 555. */
  lemma MetricNormalLength()
    ensures SumExtensions(MetricNormal, Fin(0.0), RealMetric) == Success(Fin(555.0))
  {
    OtherListsCanonical();
    RealExtensionIsTotalLength(MetricNormal, 0.0);
    assert MetricNormal[1..][1..][1..] == [];
  }

  /** The extension of (0,+inf) is +inf. */
  method UnboundedExtension() returns (e: Result<XValue>)
    ensures e == Success(PosInf)
  {
    var l := [HighSlice(0.0, false)];
    assert Canonical(l);
    var s := NewIntervalSet(l);
    e := s.Extension(Some(RealMetric));
    assert Unbounded(s.intervals[0]);
  }

  /** Membership in [10,13) + (13,14] + (15,+inf) at 9, 10, 11, 13, 14,
      14.5, 15, 20 and +inf. */
  method ContainsFirst() returns (r: seq<bool>)
    ensures r == [false, true, true, false, true, false, false, true, false]
  {
    var s := NormalizeFirst();
    FirstMembership(9.0);
    FirstMembership(10.0);
    FirstMembership(11.0);
    FirstMembership(13.0);
    FirstMembership(14.0);
    FirstMembership(14.5);
    FirstMembership(15.0);
    FirstMembership(20.0);
    r := [s.Contains(Fin(9.0)), s.Contains(Fin(10.0)), s.Contains(Fin(11.0)), s.Contains(Fin(13.0)),
          s.Contains(Fin(14.0)), s.Contains(Fin(14.5)), s.Contains(Fin(15.0)), s.Contains(Fin(20.0)),
          s.Contains(PosInf)];
  }

  /** The first normalised set holds x exactly when 10 <= x < 13,
      13 < x <= 14 or x > 15. */
  lemma FirstMembership(x: real)
    ensures Covers(Expected1, Fin(x)) <==> (10.0 <= x < 13.0 || 13.0 < x <= 14.0 || 15.0 < x)
  {
    Covers3(Expected1, Fin(x));
  }

  /** [10,11] + [11,12] equals [10,12], while (10,11) + (11,12) differs from
      (10,12), which also holds 11. */
  method EqualityExamples() returns (closedEqual: bool, openEqual: bool)
    ensures closedEqual && !openEqual
  {
    var closedSplit := [Closed(10.0, 11.0), Closed(11.0, 12.0)];
    var closedWhole := [Closed(10.0, 12.0)];
    forall x: real
      ensures Covers(closedSplit, Fin(x)) <==> Covers(closedWhole, Fin(x))
    {
      Covers2(closedSplit, Fin(x));
      Covers1(closedWhole, Fin(x));
    }
    var a, b := SameValuesSameSet(closedSplit, closedWhole);
    closedEqual := a.Equals(b);
    var openSplit := [Open(10.0, 11.0), Open(11.0, 12.0)];
    var openWhole := [Open(10.0, 12.0)];
    assert AllValid(openSplit) && AllValid(openWhole);
    var c := NewIntervalSet(openSplit);
    var d := NewIntervalSet(openWhole);
    Covers2(openSplit, Fin(11.0));
    Covers1(openWhole, Fin(11.0));
    assert !c.Contains(Fin(11.0)) && d.Contains(Fin(11.0));
    openEqual := c.Equals(d);
  }

  /** The first set above contains (11,12) and [14,14] + [17,19]. */
  method SupersetHolds() returns (r1: bool, r2: bool)
    ensures r1 && r2
  {
    var s := NormalizeFirst();
    var o1 := NewIntervalSet([Open(11.0, 12.0)]);
    var o2 := NewIntervalSet([Point(14.0), Closed(17.0, 19.0)]);
    r1 := SupersetOf(s, o1);
    r2 := SupersetOf(s, o2);
    forall x: real
      ensures o1.Contains(Fin(x)) ==> s.Contains(Fin(x))
      ensures o2.Contains(Fin(x)) ==> s.Contains(Fin(x))
    {
      InsideFirst(x);
    }
  }

  /** The first set above lacks 13, so it contains neither [13,13] nor
      (11,13) + [13,14]. */
  method SupersetFails() returns (r1: bool, r2: bool)
    ensures !r1 && !r2
  {
    var s := NormalizeFirst();
    InsideFirst(13.0);
    assert !s.Contains(Fin(13.0));
    var o1 := NewIntervalSet([Point(13.0)]);
    Covers1([Point(13.0)], Fin(13.0));
    r1 := SupersetOf(s, o1);
    var across := [Open(11.0, 13.0), Closed(13.0, 14.0)];
    assert AllValid(across);
    var o2 := NewIntervalSet(across);
    Covers2(across, Fin(13.0));
    r2 := SupersetOf(s, o2);
  }

  /** (-2,2) - (-1,1) = (-2,-1] + [1,2). */
  method DifferenceExample() returns (d: IntervalSet)
    ensures d.intervals == DifferenceExpected
  {
    var a := NewIntervalSet([Open(-2.0, 2.0)]);
    var b := NewIntervalSet([Open(-1.0, 1.0)]);
    d := Difference(a, SetOperand(b));
    OtherListsCanonical();
    forall x: real
      ensures d.Contains(Fin(x)) <==> IntervalSet(DifferenceExpected).Contains(Fin(x))
    {
      DifferencePointwise(x);
    }
    EqualIffSamePoints(d, IntervalSet(DifferenceExpected));
  }

  /** A bare interval as second operand: (-2,-1) + (1,+inf) united with the
      interval [-1,1] gives (-2,+inf). */
  method HybridUnionExample() returns (u: IntervalSet)
    ensures u.intervals == HybridExpected
  {
    OtherListsCanonical();
    var s := NewIntervalSet(HybridLeft);
    u := Union(s, IntervalOperand(Closed(-1.0, 1.0)));
    forall x: real
      ensures u.Contains(Fin(x)) <==> IntervalSet(HybridExpected).Contains(Fin(x))
    {
      HybridPointwise(x);
    }
    EqualIffSamePoints(u, IntervalSet(HybridExpected));
  }
}

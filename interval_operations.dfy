/** `combine_intervals`, the sweep-line engine: N lists of intervals and a
    boolean combiner give the canonical list of intervals whose points are
    exactly those where the combiner, applied to the N memberships, is true.
    The four phases (markers, labelling, projection, merge) are one method
    each; `CombineIntervals` chains them. */
module IntervalOperations {
  import opened Exceptions
  import opened Symbols
  import opened Pegs
  import opened Intervals
  import opened NormalForm

  // ---------------------------------------------------------------------
  // 1. Markers: the distinct peg values, sorted by the extended order.
  // ---------------------------------------------------------------------

  /** Strictly increasing under the extended order. */
  predicate Increasing(ms: seq<XValue>)
  {
    forall a, b :: 0 <= a < b < |ms| ==> XLt(ms[a], ms[b])
  }

  /** In an increasing sequence, positions compare as their values do. */
  lemma IncreasingIndex(ms: seq<XValue>, a: nat, b: nat)
    requires Increasing(ms) && a < |ms| && b < |ms|
    ensures a < b <==> XLt(ms[a], ms[b])
    ensures a == b <==> ms[a] == ms[b]
  {
    if b < a {
      assert XLt(ms[b], ms[a]);
    }
  }

  /** Some interval of some list has a peg at this value. */
  ghost predicate IsPegValue(lists: seq<seq<Interval>>, v: XValue)
  {
    exists i, k :: 0 <= i < |lists| && 0 <= k < |lists[i]| &&
      (lists[i][k].begin.value == v || lists[i][k].end.value == v)
  }

  /** The peg values of one list, in order (with repetitions). */
  function ListPegValues(list: seq<Interval>): (r: seq<XValue>)
    ensures forall v :: v in r <==>
      exists k :: 0 <= k < |list| && (list[k].begin.value == v || list[k].end.value == v)
  {
    if list == [] then []
    else
      var pegs := PegsOf(list[0]);
      var rest := ListPegValues(list[1..]);
      assert forall k :: 1 <= k < |list| ==> list[k] == list[1..][k - 1];
      [pegs[0].value, pegs[1].value] + rest
  }

  /** The stream of peg values of all lists, as the marker comprehension
      enumerates them. */
  function AllPegValues(lists: seq<seq<Interval>>): (r: seq<XValue>)
    ensures forall v :: v in r <==> IsPegValue(lists, v)
  {
    if lists == [] then []
    else
      var rest := AllPegValues(lists[1..]);
      assert forall i :: 1 <= i < |lists| ==> lists[i] == lists[1..][i - 1];
      ListPegValues(lists[0]) + rest
  }

  /** Adds one value to an increasing sequence of distinct values, keeping it
      increasing; a value already present is not added again. */
  method InsertMarker(ms: seq<XValue>, v: XValue) returns (r: seq<XValue>)
    requires Increasing(ms)
    ensures Increasing(r)
    ensures forall w :: w in r <==> w in ms || w == v
  {
    var j := 0;
    while j < |ms| && XLt(ms[j], v)
      invariant 0 <= j <= |ms|
      invariant forall a :: 0 <= a < j ==> XLt(ms[a], v)
    {
      j := j + 1;
    }
    if j < |ms| && ms[j] == v {
      r := ms;
    } else {
      Splice(ms, j, v);
      r := ms[..j] + [v] + ms[j..];
    }
  }

  /** Putting a value between the markers below it and those above it keeps
      the sequence increasing and adds just that value. */
  lemma Splice(ms: seq<XValue>, j: nat, v: XValue)
    requires Increasing(ms) && j <= |ms|
    requires forall a :: 0 <= a < j ==> XLt(ms[a], v)
    requires j < |ms| ==> ms[j] != v && !XLt(ms[j], v)
    ensures Increasing(ms[..j] + [v] + ms[j..])
    ensures forall w :: w in ms[..j] + [v] + ms[j..] <==> w in ms || w == v
  {
    SpliceOrder(ms, j, v);
    assert ms == ms[..j] + ms[j..];
  }

  /** The order half of `Splice`, case by case on the two positions. */
  lemma SpliceOrder(ms: seq<XValue>, j: nat, v: XValue)
    requires Increasing(ms) && j <= |ms|
    requires forall a :: 0 <= a < j ==> XLt(ms[a], v)
    requires j < |ms| ==> ms[j] != v && !XLt(ms[j], v)
    ensures Increasing(ms[..j] + [v] + ms[j..])
  {
    var r := ms[..j] + [v] + ms[j..];
    forall a | 0 <= a < |r|
      ensures r[a] == (if a < j then ms[a] else if a == j then v else ms[a - 1])
    {
    }
    forall b | j < b < |r|
      ensures XLt(v, r[b])
    {
      assert XLt(v, ms[j]);
      if b - 1 > j {
        assert XLt(ms[j], ms[b - 1]);
      }
    }
    forall a, b | 0 <= a < b < |r|
      ensures XLt(r[a], r[b])
    {
      if b <= j || a > j {
      } else if a < j {
        assert XLt(r[a], v) && XLt(v, r[b]);
      }
    }
  }

  /** `sorted(set(values), key=x_cmp)`: the distinct values, increasing. */
  method SortMarkers(values: seq<XValue>) returns (ms: seq<XValue>)
    ensures Increasing(ms)
    ensures forall v :: v in ms <==> v in values
  {
    ms := [];
    for n := 0 to |values|
      invariant Increasing(ms)
      invariant forall v :: v in ms <==> v in values[..n]
    {
      ms := InsertMarker(ms, values[n]);
      assert values[..n + 1] == values[..n] + [values[n]];
    }
    assert values[..|values|] == values;
  }

  /** `m_index_map`: the position of a marker value. */
  function MarkerIndex(ms: seq<XValue>, v: XValue): (j: nat)
    requires v in ms
    ensures j < |ms| && ms[j] == v
  {
    if ms[0] == v then 0 else 1 + MarkerIndex(ms[1..], v)
  }

  // ---------------------------------------------------------------------
  // 2. Labelling: per marker and per list, is the marker's point inside the
  //    list, and is the open gap right after the marker inside the list?
  // ---------------------------------------------------------------------

  /** Every interval of every list is valid. */
  predicate ValidLists(lists: seq<seq<Interval>>)
  {
    forall i :: 0 <= i < |lists| ==> AllValid(lists[i])
  }

  /** Every peg value of every list is among the markers. */
  predicate MarkersCover(lists: seq<seq<Interval>>, ms: seq<XValue>)
  {
    forall i, k :: 0 <= i < |lists| && 0 <= k < |lists[i]| ==>
      lists[i][k].begin.value in ms && lists[i][k].end.value in ms
  }

  /** The interval begins at or before marker m and ends after it, i.e. its
      begin index is at most m's index and its end index is beyond it. */
  predicate Spans(iv: Interval, m: XValue)
  {
    XLe(iv.begin.value, m) && XLt(m, iv.end.value)
  }

  /** Some interval of the list spans the gap after m. */
  predicate Spanned(list: seq<Interval>, m: XValue)
  {
    exists k :: 0 <= k < |list| && Spans(list[k], m)
  }

  /** The index-based labels of one interval with begin index b and end
      index e: an included end, or a marker strictly between them. */
  predicate MarkedAt(iv: Interval, b: nat, e: nat, j: nat)
  {
    (j == b && iv.begin.included) || (j == e && iv.end.included) || (b < j < e)
  }

  /** The index-based labels agree with membership of the marker (point
      label) and with the interval reaching past the marker (range label). */
  lemma MarkedIffContains(ms: seq<XValue>, iv: Interval, b: nat, e: nat, j: nat)
    requires Increasing(ms) && iv.Valid()
    requires b < |ms| && e < |ms| && j < |ms|
    requires ms[b] == iv.begin.value && ms[e] == iv.end.value
    ensures MarkedAt(iv, b, e, j) <==> Contains(iv, ms[j])
    ensures (b <= j < e) <==> Spans(iv, ms[j])
  {
    IncreasingIndex(ms, b, j);
    IncreasingIndex(ms, j, e);
  }

  /** The body of the labelling loop for one interval of list i: marks its
      included pegs, the markers strictly inside it, and the gaps from its
      begin marker up to (not including) its end marker. */
  method MarkInterval(pointIncluded: array2<bool>, rangeIncluded: array2<bool>,
                      ms: seq<XValue>, i: nat, iv: Interval)
    requires pointIncluded != rangeIncluded
    requires pointIncluded.Length0 == |ms| && rangeIncluded.Length0 == |ms|
    requires i < pointIncluded.Length1 && i < rangeIncluded.Length1
    requires Increasing(ms) && iv.Valid() && iv.begin.value in ms && iv.end.value in ms
    modifies pointIncluded, rangeIncluded
    ensures forall j, c :: 0 <= j < |ms| && 0 <= c < pointIncluded.Length1 ==>
      pointIncluded[j, c] == (old(pointIncluded[j, c]) || (c == i && Contains(iv, ms[j])))
    ensures forall j, c :: 0 <= j < |ms| && 0 <= c < rangeIncluded.Length1 ==>
      rangeIncluded[j, c] == (old(rangeIncluded[j, c]) || (c == i && Spans(iv, ms[j])))
  {
    var b := MarkerIndex(ms, iv.begin.value);
    var e := MarkerIndex(ms, iv.end.value);
    IncreasingIndex(ms, e, b);
    if iv.begin.included {
      pointIncluded[b, i] := true;
    }
    if iv.end.included {
      pointIncluded[e, i] := true;
    }
    var j := b + 1;
    while j < e
      invariant b < j && (j <= e || j == b + 1)
      invariant forall j', c :: 0 <= j' < |ms| && 0 <= c < pointIncluded.Length1 ==>
        pointIncluded[j', c] ==
          (old(pointIncluded[j', c]) || (c == i && (MarkedAt(iv, b, e, j') && (j' <= b || j' >= e || j' < j))))
      invariant forall j', c :: 0 <= j' < |ms| && 0 <= c < rangeIncluded.Length1 ==>
        rangeIncluded[j', c] == old(rangeIncluded[j', c])
    {
      pointIncluded[j, i] := true;
      j := j + 1;
    }
    j := b;
    while j < e
      invariant b <= j <= e
      invariant forall j', c :: 0 <= j' < |ms| && 0 <= c < pointIncluded.Length1 ==>
        pointIncluded[j', c] == (old(pointIncluded[j', c]) || (c == i && MarkedAt(iv, b, e, j')))
      invariant forall j', c :: 0 <= j' < |ms| && 0 <= c < rangeIncluded.Length1 ==>
        rangeIncluded[j', c] == (old(rangeIncluded[j', c]) || (c == i && b <= j' < j))
    {
      rangeIncluded[j, i] := true;
      j := j + 1;
    }
    forall j' | 0 <= j' < |ms|
      ensures MarkedAt(iv, b, e, j') <==> Contains(iv, ms[j'])
      ensures (b <= j' < e) <==> Spans(iv, ms[j'])
    {
      MarkedIffContains(ms, iv, b, e, j');
    }
  }

  /** Extending a list prefix by one interval extends what it covers and
      spans by that interval. */
  lemma PrefixStep(list: seq<Interval>, k: nat, m: XValue)
    requires k < |list|
    ensures Covers(list[..k + 1], m) <==> Covers(list[..k], m) || Contains(list[k], m)
    ensures Spanned(list[..k + 1], m) <==> Spanned(list[..k], m) || Spans(list[k], m)
  {
    var p, q := list[..k + 1], list[..k];
    assert p[k] == list[k];
    assert forall a :: 0 <= a < k ==> p[a] == q[a];
  }

  /** The labelling of list i: the loop over its intervals.  Column i ends
      up holding, per marker, whether the list contains the marker and
      whether it spans the gap after it; other columns are untouched. */
  method LabelList(pointIncluded: array2<bool>, rangeIncluded: array2<bool>,
                   ms: seq<XValue>, i: nat, list: seq<Interval>)
    requires pointIncluded != rangeIncluded
    requires pointIncluded.Length0 == |ms| && rangeIncluded.Length0 == |ms|
    requires i < pointIncluded.Length1 && i < rangeIncluded.Length1
    requires Increasing(ms) && AllValid(list)
    requires forall k :: 0 <= k < |list| ==> list[k].begin.value in ms && list[k].end.value in ms
    requires forall j :: 0 <= j < |ms| ==> !pointIncluded[j, i] && !rangeIncluded[j, i]
    modifies pointIncluded, rangeIncluded
    ensures forall j, c :: 0 <= j < |ms| && 0 <= c < pointIncluded.Length1 ==>
      pointIncluded[j, c] == (if c == i then Covers(list, ms[j]) else old(pointIncluded[j, c]))
    ensures forall j, c :: 0 <= j < |ms| && 0 <= c < rangeIncluded.Length1 ==>
      rangeIncluded[j, c] == (if c == i then Spanned(list, ms[j]) else old(rangeIncluded[j, c]))
  {
    for k := 0 to |list|
      invariant forall j, c :: 0 <= j < |ms| && 0 <= c < pointIncluded.Length1 ==>
        pointIncluded[j, c] == (if c == i then Covers(list[..k], ms[j]) else old(pointIncluded[j, c]))
      invariant forall j, c :: 0 <= j < |ms| && 0 <= c < rangeIncluded.Length1 ==>
        rangeIncluded[j, c] == (if c == i then Spanned(list[..k], ms[j]) else old(rangeIncluded[j, c]))
    {
      MarkInterval(pointIncluded, rangeIncluded, ms, i, list[k]);
      forall j | 0 <= j < |ms| ensures
        && (Covers(list[..k + 1], ms[j]) <==> Covers(list[..k], ms[j]) || Contains(list[k], ms[j]))
        && (Spanned(list[..k + 1], ms[j]) <==> Spanned(list[..k], ms[j]) || Spans(list[k], ms[j]))
      {
        PrefixStep(list, k, ms[j]);
      }
    }
    assert list[..|list|] == list;
  }

  /** The labelling phase: afterwards point label (j, i) says whether list i
      contains marker j, and range label (j, i) whether some interval of
      list i spans the gap after marker j. */
  method Label(lists: seq<seq<Interval>>, ms: seq<XValue>)
      returns (pointIncluded: array2<bool>, rangeIncluded: array2<bool>)
    requires ValidLists(lists) && Increasing(ms) && MarkersCover(lists, ms)
    ensures pointIncluded.Length0 == |ms| && pointIncluded.Length1 == |lists|
    ensures rangeIncluded.Length0 == |ms| && rangeIncluded.Length1 == |lists|
    ensures forall j, i :: 0 <= j < |ms| && 0 <= i < |lists| ==>
      pointIncluded[j, i] == Covers(lists[i], ms[j])
    ensures forall j, i :: 0 <= j < |ms| && 0 <= i < |lists| ==>
      rangeIncluded[j, i] == Spanned(lists[i], ms[j])
  {
    pointIncluded := new bool[|ms|, |lists|]((_, _) => false);
    rangeIncluded := new bool[|ms|, |lists|]((_, _) => false);
    for i := 0 to |lists|
      invariant forall j, c :: 0 <= j < |ms| && 0 <= c < |lists| ==>
        pointIncluded[j, c] == (c < i && Covers(lists[c], ms[j]))
      invariant forall j, c :: 0 <= j < |ms| && 0 <= c < |lists| ==>
        rangeIncluded[j, c] == (c < i && Spanned(lists[c], ms[j]))
    {
      assert AllValid(lists[i]);
      LabelList(pointIncluded, rangeIncluded, ms, i, lists[i]);
    }
  }

  // ---------------------------------------------------------------------
  // 3. Projection through the combiner.
  // ---------------------------------------------------------------------

  /** The labels of marker j across all lists, as the combiner receives them. */
  function Row(labels: array2<bool>, j: nat): (r: seq<bool>)
    requires j < labels.Length0
    reads labels
    ensures |r| == labels.Length1
    ensures forall i :: 0 <= i < labels.Length1 ==> r[i] == labels[j, i]
  {
    seq(labels.Length1, i requires 0 <= i < labels.Length1 reads labels => labels[j, i])
  }

  /** The projection phase: every marker's point, and every gap except the
      one after the last marker, is mapped through the combiner; the last
      gap stays false. */
  method Project(pointIncluded: array2<bool>, rangeIncluded: array2<bool>, f: seq<bool> -> bool)
      returns (pointMerged: seq<bool>, rangeMerged: seq<bool>)
    requires pointIncluded.Length0 == rangeIncluded.Length0
    ensures |pointMerged| == pointIncluded.Length0 && |rangeMerged| == pointIncluded.Length0
    ensures forall j :: 0 <= j < |pointMerged| ==> pointMerged[j] == f(Row(pointIncluded, j))
    ensures forall j :: 0 <= j < |rangeMerged| ==>
      rangeMerged[j] == (j < |rangeMerged| - 1 && f(Row(rangeIncluded, j)))
  {
    var n := pointIncluded.Length0;
    var pm := new bool[n](_ => false);
    var rm := new bool[n](_ => false);
    for j := 0 to n
      invariant forall a :: 0 <= a < j ==> pm[a] == f(Row(pointIncluded, a))
      invariant forall a :: 0 <= a < n ==> !rm[a]
    {
      pm[j] := f(Row(pointIncluded, j));
    }
    if n > 0 {
      for j := 0 to n - 1
        invariant forall a :: 0 <= a < n ==> pm[a] == f(Row(pointIncluded, a))
        invariant forall a :: 0 <= a < j ==> rm[a] == f(Row(rangeIncluded, a))
        invariant forall a :: j <= a < n ==> !rm[a]
      {
        rm[j] := f(Row(rangeIncluded, j));
      }
    }
    pointMerged, rangeMerged := pm[..], rm[..];
  }

  // ---------------------------------------------------------------------
  // 4. Merge: a left-to-right scan with a one-slot buffer.
  // ---------------------------------------------------------------------

  /** What the merge phase needs of its input: increasing markers, one point
      and one range label per marker, no range after the last marker, and no
      true point label on an infinity. */
  predicate MergeReady(ms: seq<XValue>, pointMerged: seq<bool>, rangeMerged: seq<bool>)
  {
    && Increasing(ms)
    && |pointMerged| == |ms| && |rangeMerged| == |ms|
    && (|ms| > 0 ==> !rangeMerged[|ms| - 1])
    && (forall j :: 0 <= j < |ms| && pointMerged[j] ==> ms[j].Fin?)
  }

  /** x lies strictly inside the gap after marker j. */
  predicate InGap(ms: seq<XValue>, j: nat, x: real)
    requires j + 1 < |ms|
  {
    XLt(ms[j], Fin(x)) && XLt(Fin(x), ms[j + 1])
  }

  /** The marker after marker t, or +inf after the last one. */
  function Next(ms: seq<XValue>, t: nat): XValue
  {
    if t + 1 < |ms| then ms[t + 1] else PosInf
  }

  /** The set the projected labels describe: x is a marker whose point label
      is true, or lies in a gap whose range label is true. */
  ghost predicate Profile(ms: seq<XValue>, pointMerged: seq<bool>, rangeMerged: seq<bool>, x: real)
    requires |pointMerged| == |ms| && |rangeMerged| == |ms|
  {
    || (exists j :: 0 <= j < |ms| && ms[j] == Fin(x) && pointMerged[j])
    || (exists j :: 0 <= j < |ms| - 1 && InGap(ms, j, x) && rangeMerged[j])
  }

  /** Between marker t (included) and the next marker (excluded), the
      profile is marker t's point label at the marker and its range label
      after it. */
  lemma ProfileNear(ms: seq<XValue>, pm: seq<bool>, rm: seq<bool>, t: nat, x: real)
    requires MergeReady(ms, pm, rm) && t < |ms|
    requires XLe(ms[t], Fin(x)) && XLt(Fin(x), Next(ms, t))
    ensures Profile(ms, pm, rm, x) == (if ms[t] == Fin(x) then pm[t] else rm[t])
  {
    forall j | 0 <= j < |ms| && ms[j] == Fin(x)
      ensures j == t
    {
      IncreasingIndex(ms, j, t);
      if t + 1 < |ms| {
        IncreasingIndex(ms, j, t + 1);
      }
    }
    forall j | 0 <= j < |ms| - 1 && InGap(ms, j, x)
      ensures j == t
    {
      IncreasingIndex(ms, j, t);
      IncreasingIndex(ms, j + 1, t);
      if t + 1 < |ms| {
        IncreasingIndex(ms, j, t + 1);
      }
    }
    if ms[t] != Fin(x) && t + 1 < |ms| {
      assert InGap(ms, t, x);
    }
  }

  /** Nothing below the first marker is in the profile. */
  lemma ProfileBelowFirst(ms: seq<XValue>, pm: seq<bool>, rm: seq<bool>, x: real)
    requires MergeReady(ms, pm, rm)
    requires |ms| > 0 ==> XLt(Fin(x), ms[0])
    ensures !Profile(ms, pm, rm, x)
  {
    forall j | 0 <= j < |ms|
      ensures XLt(Fin(x), ms[j])
    {
      IncreasingIndex(ms, 0, j);
    }
  }

  /** A value strictly between two markers lies on a marker or in a gap
      between them. */
  lemma Locate(ms: seq<XValue>, lo: nat, hi: nat, x: real) returns (j: nat)
    requires Increasing(ms) && lo < hi < |ms|
    requires XLt(ms[lo], Fin(x)) && XLt(Fin(x), ms[hi])
    ensures lo <= j < hi && XLe(ms[j], Fin(x)) && XLt(Fin(x), ms[j + 1])
    decreases hi - lo
  {
    if XLt(Fin(x), ms[lo + 1]) {
      j := lo;
    } else if ms[lo + 1] == Fin(x) {
      j := lo + 1;
      assert j + 1 <= hi;
    } else {
      j := Locate(ms, lo + 1, hi, x);
    }
  }

  /** Along a run of true range labels whose inner markers all have true
      point labels, every value strictly inside the run is in the profile. */
  lemma ProfileRun(ms: seq<XValue>, pm: seq<bool>, rm: seq<bool>, s: nat, t: nat, x: real)
    requires MergeReady(ms, pm, rm) && s < t < |ms|
    requires forall j :: s <= j < t ==> rm[j]
    requires forall j :: s < j < t ==> pm[j]
    requires XLt(ms[s], Fin(x)) && XLt(Fin(x), ms[t])
    ensures Profile(ms, pm, rm, x)
  {
    var j := Locate(ms, s, t, x);
    if ms[j] == Fin(x) {
      assert j != s;
    } else {
      assert InGap(ms, j, x) && rm[j];
    }
  }

  /** Appending an interval whose points are exactly the profile between
      the old and the new frontier moves the covered region up to the new
      frontier. */
  lemma EmitStep(ms: seq<XValue>, pm: seq<bool>, rm: seq<bool>, out: seq<Interval>, iv: Interval,
                 oldF: XValue, newF: XValue)
    requires MergeReady(ms, pm, rm)
    requires forall x: real :: Covers(out, Fin(x)) <==> Profile(ms, pm, rm, x) && XLt(Fin(x), oldF)
    requires forall x: real :: (Profile(ms, pm, rm, x) && XLt(Fin(x), newF)) <==>
                                (Profile(ms, pm, rm, x) && XLt(Fin(x), oldF)) || Contains(iv, Fin(x))
    ensures forall x: real :: Covers(out + [iv], Fin(x)) <==> Profile(ms, pm, rm, x) && XLt(Fin(x), newF)
  {
    forall x: real
      ensures Covers(out + [iv], Fin(x)) <==> Profile(ms, pm, rm, x) && XLt(Fin(x), newF)
    {
      CoversAppend(out, iv, Fin(x));
    }
  }

  /** At a marker with no range after it and a false point label, the
      covered region simply moves on to the next marker. */
  lemma SkipRegion(ms: seq<XValue>, pm: seq<bool>, rm: seq<bool>, t: nat)
    requires MergeReady(ms, pm, rm) && t < |ms| && !rm[t] && !pm[t]
    ensures forall x: real :: (Profile(ms, pm, rm, x) && XLt(Fin(x), Next(ms, t))) <==>
                                (Profile(ms, pm, rm, x) && XLt(Fin(x), ms[t]))
  {
    forall x: real
      ensures (Profile(ms, pm, rm, x) && XLt(Fin(x), Next(ms, t))) <==>
              (Profile(ms, pm, rm, x) && XLt(Fin(x), ms[t]))
    {
      if XLe(ms[t], Fin(x)) && XLt(Fin(x), Next(ms, t)) {
        ProfileNear(ms, pm, rm, t, x);
      }
    }
  }

  /** An isolated true point: the closed interval [m, m] is exactly the
      profile from marker t up to the next marker. */
  lemma PointRegion(ms: seq<XValue>, pm: seq<bool>, rm: seq<bool>, t: nat)
    requires MergeReady(ms, pm, rm) && t < |ms| && !rm[t] && pm[t]
    ensures forall x: real :: (Profile(ms, pm, rm, x) && XLt(Fin(x), Next(ms, t))) <==>
                                (Profile(ms, pm, rm, x) && XLt(Fin(x), ms[t]))
                                || Contains(Interval(Peg(ms[t], true), Peg(ms[t], true)), Fin(x))
  {
    forall x: real
      ensures (Profile(ms, pm, rm, x) && XLt(Fin(x), Next(ms, t))) <==>
              (Profile(ms, pm, rm, x) && XLt(Fin(x), ms[t]))
              || Contains(Interval(Peg(ms[t], true), Peg(ms[t], true)), Fin(x))
    {
      if XLe(ms[t], Fin(x)) && XLt(Fin(x), Next(ms, t)) {
        ProfileNear(ms, pm, rm, t, x);
      }
    }
  }

  /** Flushing the buffer opened at marker s when it closes at marker t:
      the interval from (ms[s], its point label) to (ms[t], its point label)
      is exactly the profile from marker s up to the new frontier, which is
      ms[t] itself at a hole (range continues, point false) and the next
      marker at a true end. */
  lemma RunRegion(ms: seq<XValue>, pm: seq<bool>, rm: seq<bool>, s: nat, t: nat)
    requires MergeReady(ms, pm, rm) && s < t < |ms|
    requires forall j :: s <= j < t ==> rm[j]
    requires forall j :: s < j < t ==> pm[j]
    requires rm[t] ==> !pm[t]
    ensures Interval(Peg(ms[s], pm[s]), Peg(ms[t], pm[t])).Valid()
    ensures forall x: real ::
      (Profile(ms, pm, rm, x) && XLt(Fin(x), if rm[t] then ms[t] else Next(ms, t))) <==>
      (Profile(ms, pm, rm, x) && XLt(Fin(x), ms[s]))
      || Contains(Interval(Peg(ms[s], pm[s]), Peg(ms[t], pm[t])), Fin(x))
  {
    IncreasingIndex(ms, s, t);
    var iv := Interval(Peg(ms[s], pm[s]), Peg(ms[t], pm[t]));
    var newF := if rm[t] then ms[t] else Next(ms, t);
    forall x: real
      ensures (Profile(ms, pm, rm, x) && XLt(Fin(x), newF)) <==>
              (Profile(ms, pm, rm, x) && XLt(Fin(x), ms[s])) || Contains(iv, Fin(x))
    {
      if XLt(Fin(x), ms[s]) {
      } else if ms[s] == Fin(x) {
        IncreasingIndex(ms, s, s + 1);
        ProfileNear(ms, pm, rm, s, x);
      } else if XLt(Fin(x), ms[t]) {
        ProfileRun(ms, pm, rm, s, t, x);
      } else if XLt(Fin(x), Next(ms, t)) {
        ProfileNear(ms, pm, rm, t, x);
      } else {
      }
    }
  }

  /** `i_buffer`: empty, or an interval under construction with its start
      peg and its provisional end peg. */
  datatype Buffer = Empty | Open(start: Peg, end: Option<Peg>)

  /** The scan state before marker t: the emitted list is canonical and
      covers exactly the profile below the frontier; an empty buffer sits
      after a false range label, with the frontier at the current marker; an
      open buffer started at marker s, every range label since s is true and
      every inner point label is true. */
  ghost predicate ScanState(ms: seq<XValue>, pm: seq<bool>, rm: seq<bool>, t: nat,
                            out: seq<Interval>, buffer: Buffer, s: nat, frontier: XValue)
    requires MergeReady(ms, pm, rm) && t <= |ms|
  {
    && Canonical(out)
    && (buffer.Empty? ==>
          && (t > 0 ==> !rm[t - 1])
          && frontier == (if t < |ms| then ms[t] else PosInf)
          && (|out| > 0 && t < |ms| ==> XLt(out[|out| - 1].end.value, ms[t])))
    && (buffer.Open? ==>
          && s < t && buffer.start == Peg(ms[s], pm[s]) && frontier == ms[s]
          && (forall j :: s <= j < t ==> rm[j])
          && (forall j :: s < j < t ==> pm[j])
          && (|out| > 0 ==> Apart(out[|out| - 1].end, buffer.start)))
    && forall x: real :: Covers(out, Fin(x)) <==> Profile(ms, pm, rm, x) && XLt(Fin(x), frontier)
  }

  /** One step of the merge scan, at marker t, with an empty buffer: open a
      buffer when a range follows, emit [m, m] for an isolated true point,
      otherwise move on. */
  method StepEmpty(ms: seq<XValue>, pointMerged: seq<bool>, rangeMerged: seq<bool>, t: nat,
                   finalIntervals: seq<Interval>, ghost frontier: XValue)
      returns (out: seq<Interval>, buffer: Buffer, ghost s: nat, ghost frontier': XValue)
    requires MergeReady(ms, pointMerged, rangeMerged) && t < |ms|
    requires ScanState(ms, pointMerged, rangeMerged, t, finalIntervals, Empty, 0, frontier)
    ensures ScanState(ms, pointMerged, rangeMerged, t + 1, out, buffer, s, frontier')
  {
    var marker := ms[t];
    var nextIsRange := rangeMerged[t];
    var pointIncluded := pointMerged[t];
    out, buffer, s, frontier' := finalIntervals, Empty, 0, frontier;
    if nextIsRange {
      buffer := Open(Peg(marker, pointIncluded), None);
      s := t;
    } else if pointIncluded {
      // an isolated point is a zero-length closed interval
      var point := Interval(Peg(marker, true), Peg(marker, true));
      PointRegion(ms, pointMerged, rangeMerged, t);
      EmitStep(ms, pointMerged, rangeMerged, finalIntervals, point, frontier, Next(ms, t));
      CanonicalAppend(finalIntervals, point);
      out := finalIntervals + [point];
      frontier' := Next(ms, t);
      if t + 1 < |ms| {
        IncreasingIndex(ms, t, t + 1);
      }
    } else {
      SkipRegion(ms, pointMerged, rangeMerged, t);
      if |finalIntervals| > 0 && t + 1 < |ms| {
        IncreasingIndex(ms, t, t + 1);
      }
      frontier' := Next(ms, t);
    }
  }

  /** A true point inside a continuing range keeps the buffer open. */
  lemma ExtendState(ms: seq<XValue>, pm: seq<bool>, rm: seq<bool>, t: nat,
                    out: seq<Interval>, buffer: Buffer, s: nat, frontier: XValue)
    requires MergeReady(ms, pm, rm) && t < |ms| && buffer.Open? && rm[t] && pm[t]
    requires ScanState(ms, pm, rm, t, out, buffer, s, frontier)
    ensures ScanState(ms, pm, rm, t + 1, out, buffer.(end := Some(Peg(ms[t], pm[t]))), s, frontier)
  {
  }

  /** A hole flushes the buffer and re-opens it at the same marker. */
  lemma HoleState(ms: seq<XValue>, pm: seq<bool>, rm: seq<bool>, t: nat,
                  out: seq<Interval>, buffer: Buffer, s: nat, frontier: XValue)
    requires MergeReady(ms, pm, rm) && t < |ms| && buffer.Open? && rm[t] && !pm[t]
    requires ScanState(ms, pm, rm, t, out, buffer, s, frontier)
    ensures ScanState(ms, pm, rm, t + 1, out + [Interval(buffer.start, Peg(ms[t], pm[t]))],
                      Open(Peg(ms[t], pm[t]), None), t, ms[t])
  {
    var iv := Interval(buffer.start, Peg(ms[t], pm[t]));
    RunRegion(ms, pm, rm, s, t);
    EmitStep(ms, pm, rm, out, iv, frontier, ms[t]);
    CanonicalAppend(out, iv);
    var out' := out + [iv];
    assert out'[|out'| - 1] == iv;
    OpenStateIntro(ms, pm, rm, t + 1, out', Peg(ms[t], pm[t]), t, ms[t]);
  }

  /** The scan state with a buffer freshly opened at marker s, from its
      conjuncts one by one. */
  lemma OpenStateIntro(ms: seq<XValue>, pm: seq<bool>, rm: seq<bool>, t: nat,
                       out: seq<Interval>, start: Peg, s: nat, frontier: XValue)
    requires MergeReady(ms, pm, rm) && t <= |ms|
    requires Canonical(out)
    requires s < t && start == Peg(ms[s], pm[s]) && frontier == ms[s]
    requires forall j :: s <= j < t ==> rm[j]
    requires forall j :: s < j < t ==> pm[j]
    requires |out| > 0 ==> Apart(out[|out| - 1].end, start)
    requires forall x: real :: Covers(out, Fin(x)) <==> Profile(ms, pm, rm, x) && XLt(Fin(x), frontier)
    ensures ScanState(ms, pm, rm, t, out, Open(start, None), s, frontier)
  {
  }

  /** A false range label flushes the buffer and empties it. */
  lemma CloseState(ms: seq<XValue>, pm: seq<bool>, rm: seq<bool>, t: nat,
                   out: seq<Interval>, buffer: Buffer, s: nat, frontier: XValue)
    requires MergeReady(ms, pm, rm) && t < |ms| && buffer.Open? && !rm[t]
    requires ScanState(ms, pm, rm, t, out, buffer, s, frontier)
    ensures ScanState(ms, pm, rm, t + 1, out + [Interval(buffer.start, Peg(ms[t], pm[t]))],
                      Empty, s, Next(ms, t))
  {
    var iv := Interval(buffer.start, Peg(ms[t], pm[t]));
    RunRegion(ms, pm, rm, s, t);
    EmitStep(ms, pm, rm, out, iv, frontier, Next(ms, t));
    CanonicalAppend(out, iv);
    if t + 1 < |ms| {
      IncreasingIndex(ms, t, t + 1);
    }
  }

  /** One step of the merge scan, at marker t, with an open buffer: record
      the marker as the provisional end; a true point inside a continuing
      range extends the buffer, a hole flushes it and re-opens it at the
      same marker, and a false range label flushes and empties it. */
  method StepOpen(ms: seq<XValue>, pointMerged: seq<bool>, rangeMerged: seq<bool>, t: nat,
                  finalIntervals: seq<Interval>, buffer: Buffer, ghost s: nat, ghost frontier: XValue)
      returns (out: seq<Interval>, buffer': Buffer, ghost s': nat, ghost frontier': XValue)
    requires MergeReady(ms, pointMerged, rangeMerged) && t < |ms| && buffer.Open?
    requires ScanState(ms, pointMerged, rangeMerged, t, finalIntervals, buffer, s, frontier)
    ensures ScanState(ms, pointMerged, rangeMerged, t + 1, out, buffer', s', frontier')
  {
    var marker := ms[t];
    var nextIsRange := rangeMerged[t];
    var pointIncluded := pointMerged[t];
    var flushed := Interval(buffer.start, Peg(marker, pointIncluded));
    if nextIsRange && pointIncluded {
      // extend the buffer's provisional end
      ExtendState(ms, pointMerged, rangeMerged, t, finalIntervals, buffer, s, frontier);
      out, buffer', s', frontier' := finalIntervals, buffer.(end := Some(Peg(marker, pointIncluded))), s, frontier;
    } else if nextIsRange {
      // a hole: flush and re-open at the same marker
      HoleState(ms, pointMerged, rangeMerged, t, finalIntervals, buffer, s, frontier);
      out, buffer', s', frontier' := finalIntervals + [flushed], Open(Peg(marker, pointIncluded), None), t, marker;
    } else {
      // end of the run: flush and empty the buffer
      CloseState(ms, pointMerged, rangeMerged, t, finalIntervals, buffer, s, frontier);
      out, buffer', s', frontier' := finalIntervals + [flushed], Empty, s, Next(ms, t);
    }
  }

  /** The merge phase: scans the markers once, emitting the canonical
      intervals of the profile.  Ending with an open buffer is
      InvalidCombineEndState, which cannot happen because the range label
      after the last marker is false. */
  method Merge(ms: seq<XValue>, pointMerged: seq<bool>, rangeMerged: seq<bool>)
      returns (r: Result<seq<Interval>>)
    requires MergeReady(ms, pointMerged, rangeMerged)
    ensures r.Success?
    ensures Canonical(r.value)
    ensures forall x: real :: Covers(r.value, Fin(x)) <==> Profile(ms, pointMerged, rangeMerged, x)
  {
    var finalIntervals: seq<Interval> := [];
    var buffer := Empty;
    ghost var s: nat := 0;
    ghost var frontier := if |ms| > 0 then ms[0] else PosInf;
    forall x: real ensures !Profile(ms, pointMerged, rangeMerged, x) || !XLt(Fin(x), frontier) {
      if XLt(Fin(x), frontier) {
        ProfileBelowFirst(ms, pointMerged, rangeMerged, x);
      }
    }
    for t := 0 to |ms|
      invariant ScanState(ms, pointMerged, rangeMerged, t, finalIntervals, buffer, s, frontier)
    {
      if buffer.Empty? {
        finalIntervals, buffer, s, frontier := StepEmpty(ms, pointMerged, rangeMerged, t, finalIntervals, frontier);
      } else {
        finalIntervals, buffer, s, frontier := StepOpen(ms, pointMerged, rangeMerged, t, finalIntervals, buffer, s, frontier);
      }
    }
    r := if buffer.Empty? then Success(finalIntervals) else Failure(InvalidCombineEndState);
  }

  // ---------------------------------------------------------------------
  // The whole engine.
  // ---------------------------------------------------------------------

  /** The membership of a value in each of the N lists, in list order: the
      tuple the combiner is applied to. */
  function Memberships(lists: seq<seq<Interval>>, x: XValue): (r: seq<bool>)
    ensures |r| == |lists|
    ensures forall i :: 0 <= i < |lists| ==> r[i] == Covers(lists[i], x)
  {
    seq(|lists|, i requires 0 <= i < |lists| => Covers(lists[i], x))
  }

  /** The range labels of one marker across the N lists. */
  function RangeRow(lists: seq<seq<Interval>>, m: XValue): (r: seq<bool>)
    ensures |r| == |lists|
    ensures forall i :: 0 <= i < |lists| ==> r[i] == Spanned(lists[i], m)
  {
    seq(|lists|, i requires 0 <= i < |lists| => Spanned(lists[i], m))
  }

  /** N times false: the memberships of a value that no list contains. */
  function NoneIn(n: nat): (r: seq<bool>)
    ensures |r| == n && forall i :: 0 <= i < n ==> !r[i]
  {
    seq(n, _ => false)
  }

  /** For a value inside the gap after marker j, an interval spans that gap
      exactly when it contains the value (no peg lies inside a gap). */
  lemma SpansIffContainsInGap(ms: seq<XValue>, iv: Interval, j: nat, x: real)
    requires Increasing(ms) && iv.Valid() && iv.begin.value in ms && iv.end.value in ms
    requires j + 1 < |ms| && InGap(ms, j, x)
    ensures Spans(iv, ms[j]) <==> Contains(iv, Fin(x))
  {
    var b := MarkerIndex(ms, iv.begin.value);
    var e := MarkerIndex(ms, iv.end.value);
    IncreasingIndex(ms, b, j);
    IncreasingIndex(ms, b, j + 1);
    IncreasingIndex(ms, e, j);
    IncreasingIndex(ms, e, j + 1);
  }

  /** A value contained in an interval whose pegs are markers lies between
      the first and the last marker. */
  lemma ContainedWithinMarkers(ms: seq<XValue>, iv: Interval, x: real)
    requires Increasing(ms) && iv.Valid() && iv.begin.value in ms && iv.end.value in ms
    requires Contains(iv, Fin(x))
    ensures |ms| > 0 && XLe(ms[0], Fin(x)) && XLe(Fin(x), ms[|ms| - 1])
  {
    var b := MarkerIndex(ms, iv.begin.value);
    var e := MarkerIndex(ms, iv.end.value);
    IncreasingIndex(ms, 0, b);
    IncreasingIndex(ms, e, |ms| - 1);
  }

  /** A value in no list outside the marker range. */
  lemma OutsideMarkers(lists: seq<seq<Interval>>, ms: seq<XValue>, x: real)
    requires ValidLists(lists) && Increasing(ms) && MarkersCover(lists, ms)
    requires |ms| == 0 || XLt(Fin(x), ms[0]) || XLt(ms[|ms| - 1], Fin(x))
    ensures Memberships(lists, Fin(x)) == NoneIn(|lists|)
  {
    forall i, k | 0 <= i < |lists| && 0 <= k < |lists[i]|
      ensures !Contains(lists[i][k], Fin(x))
    {
      assert lists[i][k].Valid();
      if Contains(lists[i][k], Fin(x)) {
        ContainedWithinMarkers(ms, lists[i][k], x);
      }
    }
  }

  /** The marker at or below x whose following gap (or the region after the
      last marker) holds x. */
  lemma FindSlot(ms: seq<XValue>, x: real) returns (t: nat)
    requires Increasing(ms) && |ms| > 0 && XLe(ms[0], Fin(x))
    ensures t < |ms| && XLe(ms[t], Fin(x)) && XLt(Fin(x), Next(ms, t))
  {
    var last := |ms| - 1;
    if XLe(ms[last], Fin(x)) {
      t := last;
    } else if ms[0] == Fin(x) {
      t := 0;
      IncreasingIndex(ms, 0, 1);
    } else {
      t := Locate(ms, 0, last, x);
    }
  }

  /** The merge profile built from the projected labels is the combiner
      applied to the memberships, at every finite value. */
  lemma ProfileMeansCombined(lists: seq<seq<Interval>>, f: seq<bool> -> bool,
                             ms: seq<XValue>, pm: seq<bool>, rm: seq<bool>, x: real)
    requires ValidLists(lists) && MarkersCover(lists, ms) && MergeReady(ms, pm, rm)
    requires forall j :: 0 <= j < |ms| ==> pm[j] == f(Memberships(lists, ms[j]))
    requires forall j :: 0 <= j < |ms| ==> rm[j] == (j < |ms| - 1 && f(RangeRow(lists, ms[j])))
    requires !f(NoneIn(|lists|))
    ensures Profile(ms, pm, rm, x) <==> f(Memberships(lists, Fin(x)))
  {
    if |ms| == 0 || XLt(Fin(x), ms[0]) {
      ProfileBelowFirst(ms, pm, rm, x);
      OutsideMarkers(lists, ms, x);
    } else {
      var t := FindSlot(ms, x);
      ProfileNear(ms, pm, rm, t, x);
      if ms[t] == Fin(x) {
      } else if t + 1 < |ms| {
        forall i, k | 0 <= i < |lists| && 0 <= k < |lists[i]|
          ensures Spans(lists[i][k], ms[t]) <==> Contains(lists[i][k], Fin(x))
        {
          assert lists[i][k].Valid();
          SpansIffContainsInGap(ms, lists[i][k], t, x);
        }
        assert RangeRow(lists, ms[t]) == Memberships(lists, Fin(x));
      } else {
        OutsideMarkers(lists, ms, x);
      }
    }
  }

  /** `combine_intervals`: given N lists of valid intervals and a combiner
      that maps all-false to false, returns (never failing with
      InvalidCombineEndState) a canonical list that contains a finite value
      exactly when the combiner, applied to the value's membership in each
      list, says so.  Infinities are never contained. */
  method CombineIntervals(lists: seq<seq<Interval>>, f: seq<bool> -> bool)
      returns (r: Result<seq<Interval>>)
    requires ValidLists(lists)
    requires !f(NoneIn(|lists|))
    ensures r.Success?
    ensures Canonical(r.value)
    ensures forall x: real :: Covers(r.value, Fin(x)) <==> f(Memberships(lists, Fin(x)))
  {
    var markers := SortMarkers(AllPegValues(lists));
    assert MarkersCover(lists, markers) by {
      forall i, k | 0 <= i < |lists| && 0 <= k < |lists[i]|
        ensures lists[i][k].begin.value in markers && lists[i][k].end.value in markers
      {
        assert IsPegValue(lists, lists[i][k].begin.value);
        assert IsPegValue(lists, lists[i][k].end.value);
      }
    }
    var pointIncluded, rangeIncluded := Label(lists, markers);
    var pointMerged, rangeMerged := Project(pointIncluded, rangeIncluded, f);
    forall j | 0 <= j < |markers|
      ensures pointMerged[j] == f(Memberships(lists, markers[j]))
      ensures rangeMerged[j] == (j < |markers| - 1 && f(RangeRow(lists, markers[j])))
    {
      assert Row(pointIncluded, j) == Memberships(lists, markers[j]);
      assert Row(rangeIncluded, j) == RangeRow(lists, markers[j]);
    }
    forall j | 0 <= j < |markers| && !markers[j].Fin?
      ensures !pointMerged[j]
    {
      assert Memberships(lists, markers[j]) == NoneIn(|lists|);
    }
    r := Merge(markers, pointMerged, rangeMerged);
    forall x: real
      ensures Profile(markers, pointMerged, rangeMerged, x) <==> f(Memberships(lists, Fin(x)))
    {
      ProfileMeansCombined(lists, f, markers, pointMerged, rangeMerged, x);
    }
  }
}

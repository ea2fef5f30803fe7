/** The normal form the combine engine produces: valid intervals in order,
    pairwise disjoint and such that no two neighbours could be fused. */
module NormalForm {
  import opened Symbols
  import opened Pegs
  import opened Intervals

  /** The end peg `e` of one interval and the begin peg `b` of the next leave
      something out between them: either a gap, or a shared value that
      neither side includes. */
  predicate Apart(e: Peg, b: Peg)
  {
    XLt(e.value, b.value) || (e.value == b.value && !e.included && !b.included)
  }

  /** Sorted, disjoint and non-mergeable. */
  predicate Canonical(list: seq<Interval>)
  {
    && AllValid(list)
    && forall k :: 0 <= k < |list| - 1 ==> Apart(list[k].end, list[k + 1].begin)
  }

  /** Appending a valid interval that stands apart from the last one keeps
      a list canonical. */
  lemma CanonicalAppend(list: seq<Interval>, i: Interval)
    requires Canonical(list) && i.Valid()
    requires |list| > 0 ==> Apart(list[|list| - 1].end, i.begin)
    ensures Canonical(list + [i])
  {
    var l := list + [i];
    assert forall k :: 0 <= k < |list| ==> l[k] == list[k];
  }

  /** Dropping the first interval keeps a list canonical. */
  lemma CanonicalTail(list: seq<Interval>)
    requires Canonical(list) && |list| > 0
    ensures Canonical(list[1..])
  {
    var t := list[1..];
    assert forall k :: 0 <= k < |t| ==> t[k] == list[k + 1];
  }

  /** A list covers a value exactly when its head or its tail does. */
  lemma CoversCons(list: seq<Interval>, x: XValue)
    requires |list| > 0
    ensures Covers(list, x) <==> Contains(list[0], x) || Covers(list[1..], x)
  {
    var t := list[1..];
    if Covers(list, x) {
      var k :| 0 <= k < |list| && Contains(list[k], x);
      if k > 0 {
        assert t[k - 1] == list[k];
      }
    }
    if Covers(t, x) {
      var k :| 0 <= k < |t| && Contains(t[k], x);
      assert list[k + 1] == t[k];
    }
  }

  /** A real strictly between two ordered extended values. */
  lemma Between(lo: XValue, hi: XValue) returns (x: real)
    requires XLt(lo, hi)
    ensures XLt(lo, Fin(x)) && XLt(Fin(x), hi)
  {
    match (lo, hi)
    case (Fin(a), Fin(b)) => x := (a + b) / 2.0;
    case (Fin(a), _) => x := a + 1.0;
    case (_, Fin(b)) => x := b - 1.0;
    case _ => x := 0.0;
  }

  /** Every valid interval contains some finite value. */
  lemma SomePoint(i: Interval) returns (x: real)
    requires i.Valid()
    ensures Contains(i, Fin(x))
  {
    if i.begin.included {
      x := i.begin.value.v;
    } else {
      x := Between(i.begin.value, i.end.value);
    }
  }

  /** In a canonical list every value of a later interval lies above every
      value of an earlier one. */
  lemma {:induction false} LaterAbove(list: seq<Interval>, j: nat, k: nat, x: real, y: real)
    requires Canonical(list) && j < k < |list| && Contains(list[j], Fin(x))
    ensures Contains(list[k], Fin(y)) ==> x < y
    decreases k - j
  {
    assert list[j].Valid() && list[j + 1].Valid() && Apart(list[j].end, list[j + 1].begin);
    if k > j + 1 {
      var z := SomePoint(list[j + 1]);
      LaterAbove(list, j, j + 1, x, z);
      LaterAbove(list, j + 1, k, z, y);
    }
  }

  /** The value is on the admitted side of a begin peg. */
  predicate Admits(p: Peg, x: real)
  {
    XLt(p.value, Fin(x)) || (p.value == Fin(x) && p.included)
  }

  /** Everything a canonical list covers is admitted by its first begin peg. */
  lemma CoveredAfterBegin(list: seq<Interval>, x: real)
    requires Canonical(list) && |list| > 0
    ensures Covers(list, Fin(x)) ==> Admits(list[0].begin, x)
  {
    if Covers(list, Fin(x)) {
      var k :| 0 <= k < |list| && Contains(list[k], Fin(x));
      assert list[k].Valid();
      if k > 0 {
        var z := SomePoint(list[0]);
        assert list[0].Valid();
        LaterAbove(list, 0, k, z, x);
      }
    }
  }

  /** The first begin peg `p` reaches further down than `q`. */
  predicate BeginsEarlier(p: Peg, q: Peg)
  {
    XLt(p.value, q.value) || (p.value == q.value && p.included && !q.included)
  }

  /** The end peg `p` stops short of the end peg `q`. */
  predicate EndsEarlier(p: Peg, q: Peg)
  {
    XLt(p.value, q.value) || (p.value == q.value && !p.included && q.included)
  }

  /** An interval beginning earlier than a peg `q` contains a value that `q`
      does not admit. */
  lemma PointBefore(a: Interval, q: Peg) returns (x: real)
    requires a.Valid() && BeginsEarlier(a.begin, q)
    ensures Contains(a, Fin(x)) && !Admits(q, x)
  {
    if a.begin.included {
      x := a.begin.value.v;
    } else {
      x := Between(a.begin.value, if XLt(a.end.value, q.value) then a.end.value else q.value);
    }
  }

  /** The first interval of `listB` ends later than that of `listA`, from
      the same begin: some value is in the former and nowhere in `listA`. */
  lemma PointAfter(listA: seq<Interval>, listB: seq<Interval>) returns (x: real)
    requires Canonical(listA) && Canonical(listB) && |listA| > 0 && |listB| > 0
    requires listA[0].begin == listB[0].begin && EndsEarlier(listA[0].end, listB[0].end)
    ensures Contains(listB[0], Fin(x)) && !Covers(listA, Fin(x))
  {
    var a, b := listA[0], listB[0];
    assert a.Valid() && b.Valid();
    var next := if |listA| > 1 then listA[1].begin.value else PosInf;
    if |listA| > 1 {
      assert Apart(a.end, listA[1].begin);
    }
    if a.end.included {
      x := Between(a.end.value, if XLt(b.end.value, next) then b.end.value else next);
    } else {
      x := a.end.value.v;
    }
    CoversCons(listA, Fin(x));
    if |listA| > 1 {
      CanonicalTail(listA);
      CoveredAfterBegin(listA[1..], x);
    }
  }

  /** Two different canonical lists are told apart by some finite value:
      it is covered by exactly one of them. */
  lemma {:induction false} Distinguish(listA: seq<Interval>, listB: seq<Interval>) returns (x: real)
    requires Canonical(listA) && Canonical(listB)
    ensures listA != listB ==> (Covers(listA, Fin(x)) <==> !Covers(listB, Fin(x)))
    decreases |listA| + |listB|
  {
    if listA == listB {
      x := 0.0;
    } else if |listA| == 0 {
      assert listB[0].Valid();
      x := SomePoint(listB[0]);
    } else if |listB| == 0 {
      assert listA[0].Valid();
      x := SomePoint(listA[0]);
    } else if listA[0].begin != listB[0].begin {
      assert listA[0].Valid() && listB[0].Valid();
      if BeginsEarlier(listA[0].begin, listB[0].begin) {
        x := PointBefore(listA[0], listB[0].begin);
      } else {
        x := PointBefore(listB[0], listA[0].begin);
      }
      CoveredAfterBegin(listA, x);
      CoveredAfterBegin(listB, x);
    } else if listA[0].end != listB[0].end {
      if EndsEarlier(listA[0].end, listB[0].end) {
        x := PointAfter(listA, listB);
      } else {
        x := PointAfter(listB, listA);
      }
    } else {
      assert listA[0] == listB[0];
      assert listA == [listA[0]] + listA[1..] && listB == [listB[0]] + listB[1..];
      CanonicalTail(listA);
      CanonicalTail(listB);
      x := Distinguish(listA[1..], listB[1..]);
      CoversCons(listA, Fin(x));
      CoversCons(listB, Fin(x));
      FirstApartFromRest(listA, x);
      FirstApartFromRest(listB, x);
    }
  }

  /** No value is in both the head of a canonical list and its tail. */
  lemma FirstApartFromRest(list: seq<Interval>, x: real)
    requires Canonical(list) && |list| > 0
    ensures Contains(list[0], Fin(x)) ==> !Covers(list[1..], Fin(x))
  {
    if Contains(list[0], Fin(x)) && Covers(list[1..], Fin(x)) {
      var k :| 0 <= k < |list| - 1 && Contains(list[1..][k], Fin(x));
      LaterAbove(list, 0, k + 1, x, x);
    }
  }

  /** Canonical form is unique: two canonical lists that contain the same
      finite values are the same list. */
  lemma SamePointsSameList(listA: seq<Interval>, listB: seq<Interval>)
    requires Canonical(listA) && Canonical(listB)
    requires forall x: real :: Covers(listA, Fin(x)) <==> Covers(listB, Fin(x))
    ensures listA == listB
  {
    var x := Distinguish(listA, listB);
  }
}

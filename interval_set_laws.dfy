/** Algebraic laws of the interval-set operations.  Each operation is pinned
    down by its membership contract and the uniqueness of the normal form,
    so two computations with the same membership give the same set. */
module IntervalSetLaws {
  import opened Symbols
  import opened Intervals
  import opened IntervalSets

  /** Union is commutative: a + b == b + a. */
  method UnionCommutes(a: IntervalSet, b: IntervalSet) returns (ab: IntervalSet, ba: IntervalSet)
    requires a.Valid() && b.Valid()
    ensures ab == ba
  {
    ab := Union(a, SetOperand(b));
    ba := Union(b, SetOperand(a));
    EqualIffSamePoints(ab, ba);
  }

  /** Exclusive or is commutative. */
  method XorCommutes(a: IntervalSet, b: IntervalSet) returns (ab: IntervalSet, ba: IntervalSet)
    requires a.Valid() && b.Valid()
    ensures ab == ba
  {
    ab := Xor(a, SetOperand(b));
    ba := Xor(b, SetOperand(a));
    EqualIffSamePoints(ab, ba);
  }

  /** Intersection is commutative. */
  method IntersectCommutes(a: IntervalSet, b: IntervalSet) returns (ab: IntervalSet, ba: IntervalSet)
    requires a.Valid() && b.Valid()
    ensures ab == ba
  {
    ab := Intersect(a, SetOperand(b));
    ba := Intersect(b, SetOperand(a));
    EqualIffSamePoints(ab, ba);
  }

  /** Union is associative: (a + b) + c == a + (b + c). */
  method UnionAssociates(a: IntervalSet, b: IntervalSet, c: IntervalSet)
    returns (left: IntervalSet, right: IntervalSet)
    requires a.Valid() && b.Valid() && c.Valid()
    ensures left == right
  {
    var ab := Union(a, SetOperand(b));
    left := Union(ab, SetOperand(c));
    var bc := Union(b, SetOperand(c));
    right := Union(a, SetOperand(bc));
    EqualIffSamePoints(left, right);
  }

  /** De Morgan, first form: the complement of a union is the intersection
      of the complements. */
  method ComplementOfUnion(a: IntervalSet, b: IntervalSet) returns (left: IntervalSet, right: IntervalSet)
    requires a.Valid() && b.Valid()
    ensures left == right
  {
    var ab := Union(a, SetOperand(b));
    left := Complement(ab);
    var ca := Complement(a);
    var cb := Complement(b);
    right := Intersect(ca, SetOperand(cb));
    EqualIffSamePoints(left, right);
  }

  /** De Morgan, second form: the complement of an intersection is the union
      of the complements. */
  method ComplementOfIntersection(a: IntervalSet, b: IntervalSet) returns (left: IntervalSet, right: IntervalSet)
    requires a.Valid() && b.Valid()
    ensures left == right
  {
    var ab := Intersect(a, SetOperand(b));
    left := Complement(ab);
    var ca := Complement(a);
    var cb := Complement(b);
    right := Union(ca, SetOperand(cb));
    EqualIffSamePoints(left, right);
  }

  /** Difference is intersection with the complement: a - b == a & ~b. */
  method DifferenceIsIntersectComplement(a: IntervalSet, b: IntervalSet)
    returns (left: IntervalSet, right: IntervalSet)
    requires a.Valid() && b.Valid()
    ensures left == right
  {
    left := Difference(a, SetOperand(b));
    var cb := Complement(b);
    right := Intersect(a, SetOperand(cb));
    EqualIffSamePoints(left, right);
  }

  /** Intersecting the whole line with a set gives the set back. */
  method IntersectWithAll(s: IntervalSet) returns (r: IntervalSet)
    requires s.Valid()
    ensures r == s
  {
    var all := AllSet();
    r := Intersect(all, SetOperand(s));
    EqualIffSamePoints(r, s);
  }

  /** Union of a set with itself, and re-normalising its intervals, give
      the set back. */
  method UnionIdempotent(s: IntervalSet) returns (u: IntervalSet, n: IntervalSet)
    requires s.Valid()
    ensures u == s && n == s
  {
    u := Union(s, SetOperand(s));
    EqualIffSamePoints(u, s);
    n := NewIntervalSet(s.intervals);
  }

  /** The complement of the complement is the set itself. */
  method ComplementTwice(s: IntervalSet) returns (r: IntervalSet)
    requires s.Valid()
    ensures r == s
  {
    var c := Complement(s);
    r := Complement(c);
    EqualIffSamePoints(r, s);
  }

  /** A set minus itself is empty, and a set is a superset of itself. */
  method DifferenceWithSelf(s: IntervalSet) returns (d: IntervalSet, sup: bool)
    requires s.Valid()
    ensures d.intervals == [] && sup
  {
    d := Difference(s, SetOperand(s));
    var empty := EmptySet();
    EqualIffSamePoints(d, empty);
    sup := SupersetOf(s, s);
  }

  /** Two inputs holding the same values give equal sets, whatever their
      order, overlaps or splits. */
  method SameValuesSameSet(l1: seq<Interval>, l2: seq<Interval>) returns (s1: IntervalSet, s2: IntervalSet)
    requires AllValid(l1) && AllValid(l2)
    requires forall x: real :: Covers(l1, Fin(x)) <==> Covers(l2, Fin(x))
    ensures s1 == s2
  {
    s1 := NewIntervalSet(l1);
    s2 := NewIntervalSet(l2);
    EqualIffSamePoints(s1, s2);
  }
}

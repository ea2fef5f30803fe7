# clothesline interval algebra in Dafny

This project models the core of *clothesline*, a library of sets over a
continuous domain. A set is a finite union of intervals. An interval
boundary is a *peg*: a value of the domain extended with -inf and +inf,
plus a flag saying whether the value itself is included. The model covers
the following parts:

- **symbols**: the extended values, with equality, the total order, the
  comparison function, and sum and difference with their indeterminate
  forms.
- **pegs and intervals**: the validating constructors, equality,
  membership, metric extension, `pegs` and `intervals`.
- **combine_intervals**: the sweep-line engine. It has four phases:
  1. collect and sort the markers;
  2. label each marker, per operand, as point-included and range-included;
  3. project the labels through a boolean combiner;
  4. merge the labels into intervals with a one-slot buffer.
- **interval sets**: normalisation on construction, membership, extension,
  equality, union, difference, intersection, exclusive or, complement and
  `superset_of`, all built on the engine.

The domain is the real numbers (`real`, exact). A metric is a zero, an
adder and a subtracter. Exceptions become the `Result` datatype with the
error kinds of the library.

The central theorem is the contract of `IntervalOperations.CombineIntervals`.
For any lists of valid intervals and any combiner that says false for a value
in none of the lists, the engine always succeeds. It never
reaches the "inconsistent end state" error. Its output is in normal form:
valid intervals, in order, each neighbour pair separated by a gap or by a
shared value that neither side includes. A real number is in the output
exactly when the combiner, applied to the number's memberships in the input
lists, says true.

`NormalForm.SamePointsSameList` proves that normal form is unique. So the
structural `__eq__` on interval sets is exactly "same values". Every set
law and test vector below rests on this result.

Modules:

| file | module |
|---|---|
| exceptions.dfy | `Exceptions`: error kinds, `Result`, `Option` |
| symbols.dfy | `Symbols` |
| interval_peg.dfy | `Pegs` |
| base_interval.dfy | `Intervals` |
| canonical.dfy | `NormalForm`: the normal form and its uniqueness |
| interval_operations.dfy | `IntervalOperations`: `combine_intervals` |
| base_interval_set.dfy | `IntervalSets` |
| interval_set_laws.dfy | `IntervalSetLaws`: algebraic laws of the set operations |
| interval_set_examples.dfy | `IntervalSetExamples`: the repository's test vectors, proved |

`combine_intervals` is imperative in the source, so it is modelled with
methods:

- **Marker set**: built by inserting into an increasing sequence.
- **Labels**: live in two `array2<bool>` tables, which the labelling loops
  fill in place.
- **Projection**: runs a loop per marker.
- **Merge**: scans the markers, updating a buffer datatype
  (`Empty | Open(start, end)`) that stands for `i_buffer`. Each step
  preserves the ghost predicate `ScanState`, which says:
  - the emitted list is in normal form;
  - the emitted list holds exactly the points, below a frontier, that the
    projected labels describe.

The interval-set operations are methods because they call the engine. The
pure parts of the library (symbols, pegs, intervals, membership, extension)
are functions.

## Model

| member | source | states |
|---|---|---|
| Symbols.IsSymbol | src/clothesline/algebra/symbols.py:27-31 | a value is a symbol exactly when it is one of the two infinities |
| Symbols.XEquals | src/clothesline/algebra/symbols.py:57-66 | extended equality coincides with equality of extended values (+inf only equals +inf, -inf only -inf) |
| Symbols.XGt | src/clothesline/algebra/symbols.py:69-85 | greater-than agrees with the reference order "-inf < finite < +inf, reals natively" read backwards |
| Symbols.XLt | src/clothesline/algebra/symbols.py:88-92 | less-than agrees with the reference order |
| Symbols.XCmp | src/clothesline/algebra/symbols.py:95-102 | the comparison is 0 exactly on equality, -1 exactly when less, +1 exactly when greater |
| Symbols.XGe | src/clothesline/algebra/symbols.py:105-109 | greater-or-equal is exactly "not less" |
| Symbols.XLe | src/clothesline/algebra/symbols.py:112-116 | less-or-equal is exactly "not greater" |
| Symbols.InfinitiesAreExtremes | src/clothesline/algebra/symbols.py:69-92 | -inf is below and +inf above every other value; no value is greater or less than itself |
| Symbols.StrictTotalOrder | src/clothesline/algebra/symbols.py:95-102 | the extended order is irreflexive, asymmetric, transitive and total, as sorting by the comparison needs |
| Symbols.XSum | src/clothesline/algebra/symbols.py:119-153 | the sum fails with IndeterminateForm exactly for opposite infinities; an infinite operand gives that infinity; finite operands use the adder |
| Symbols.XSubtract | src/clothesline/algebra/symbols.py:155-189 | the difference fails with IndeterminateForm exactly for two equal infinities; an infinite minuend keeps its sign and an infinite subtrahend flips it; finite operands use the subtracter |
| Symbols.SumCommutes | src/clothesline/algebra/symbols.py:119-153 | with a commutative adder the extended sum is commutative, failures included |
| Symbols.SubtractIsSumOfNegation | src/clothesline/algebra/symbols.py:155-189 | when the subtracter adds the negation, the extended difference equals the extended sum with the negated subtrahend, failures included |
| Pegs.MakePeg | src/clothesline/interval_peg.py:28-32 | construction fails with InvalidValue exactly for an included infinity, and otherwise stores value and flag unchanged as a valid peg |
| Pegs.PegEquals | src/clothesline/interval_peg.py:34-38 | peg equality holds exactly when value and flag are both equal |
| Pegs.PegEqualsIsEquivalence | src/clothesline/interval_peg.py:34-38 | peg equality is reflexive and symmetric, and the same value with different flags is unequal |
| Intervals.MakeInterval | src/clothesline/base/base_interval.py:53-67 | for valid pegs, construction succeeds exactly when the interval is valid: begin not after end, and a point-like interval closed on both ends; failures are InvalidValue |
| Intervals.IntervalEquals | src/clothesline/base/base_interval.py:69-73 | interval equality holds exactly when both pegs are equal |
| Intervals.Contains | src/clothesline/base/base_interval.py:101-131 | infinities never belong; for a valid interval, a finite value belongs exactly when it lies above the begin (or on it, if included) and below the end (or on it, if included) |
| Intervals.PointContainsOnlyItself | src/clothesline/base/base_interval.py:101-131 | the point interval [v, v] is valid and contains v and nothing else |
| Intervals.Extension | src/clothesline/base/base_interval.py:133-145 | without a metric it fails with MetricNotImplemented; for a valid interval it succeeds, is never -inf, is +inf when unbounded, and is end minus begin under the subtracter when both ends are finite |
| Intervals.PegsOf | src/clothesline/base/base_interval.py:147-150 | exactly the begin peg then the end peg; for a valid interval both are valid and in order |
| Intervals.PegsBoundContents | src/clothesline/base/base_interval.py:147-150 | the two pegs bound the interval: every contained value lies between their values, and a finite peg value is contained exactly when its peg is included |
| Intervals.IntervalsOf | src/clothesline/base/base_interval.py:152-158 | the one-element list covers exactly what the interval contains and keeps its validity |
| NormalForm.SamePointsSameList | src/clothesline/base/base_interval_set.py:96-101 | two lists in normal form that hold the same real values are the same list, so structural equality of sets is equality of their values |
| IntervalOperations.AllPegValues | src/clothesline/algebra/interval_operations.py:59-65 | the collected values are exactly the peg values of the intervals of all lists |
| IntervalOperations.InsertMarker | src/clothesline/algebra/interval_operations.py:59-67 | adding a value to a strictly increasing marker sequence keeps it strictly increasing and adds exactly that value |
| IntervalOperations.SortMarkers | src/clothesline/algebra/interval_operations.py:59-67 | the markers are strictly increasing under the extended order and are exactly the distinct input values |
| IntervalOperations.MarkerIndex | src/clothesline/algebra/interval_operations.py:68 | the index of a marker holds that marker |
| IntervalOperations.MarkedIffContains | src/clothesline/algebra/interval_operations.py:76-86 | a marker gets a point label from an interval exactly when the interval contains it, and a range label exactly when it lies from the begin marker up to, but excluding, the end marker |
| IntervalOperations.MarkInterval | src/clothesline/algebra/interval_operations.py:74-90 | labelling one interval sets exactly the cells of the markers it contains or spans, in its own column, and leaves every other cell as it was |
| IntervalOperations.LabelList | src/clothesline/algebra/interval_operations.py:73-90 | after labelling a list, its column's point labels say whether the list covers the marker, and its range labels whether some interval spans the gap after it |
| IntervalOperations.Label | src/clothesline/algebra/interval_operations.py:70-90 | the two tables are markers by lists, filled with each list's point memberships and range spans |
| IntervalOperations.Project | src/clothesline/algebra/interval_operations.py:92-108 | each merged point label is the combiner on that marker's row; each merged range label is the combiner on its row, except the last marker's, which stays false |
| IntervalOperations.SkipRegion | src/clothesline/algebra/interval_operations.py:128-130 | a marker with false labels adds no value up to the next marker |
| IntervalOperations.PointRegion | src/clothesline/algebra/interval_operations.py:119-127 | an isolated true point label contributes exactly the closed interval [m, m] up to the next marker |
| IntervalOperations.RunRegion | src/clothesline/algebra/interval_operations.py:138-155 | flushing a buffer opened at marker s at marker t gives a valid interval whose values are exactly the profile values from s onwards |
| IntervalOperations.StepEmpty | src/clothesline/algebra/interval_operations.py:116-130 | a step with an empty buffer opens a buffer, emits a point interval or does nothing, and preserves the scan invariant |
| IntervalOperations.ExtendState | src/clothesline/algebra/interval_operations.py:134-136 | a true point inside a continuing range keeps the buffer open and preserves the scan invariant |
| IntervalOperations.HoleState | src/clothesline/algebra/interval_operations.py:137-146 | a hole flushes the buffer as a valid interval apart from the previous one and re-opens it at the same marker, preserving the scan invariant |
| IntervalOperations.CloseState | src/clothesline/algebra/interval_operations.py:147-156 | a false range label flushes the buffer and empties it, preserving the scan invariant |
| IntervalOperations.StepOpen | src/clothesline/algebra/interval_operations.py:131-156 | a step with an open buffer extends, splits or closes it and preserves the scan invariant |
| IntervalOperations.Merge | src/clothesline/algebra/interval_operations.py:110-161 | the merge never ends with an open buffer; its output is in normal form and holds exactly the values the projected labels describe |
| IntervalOperations.ProfileMeansCombined | src/clothesline/algebra/interval_operations.py:92-108 | the values described by the projected labels are exactly those where the combiner on the memberships is true |
| IntervalOperations.CombineIntervals | src/clothesline/algebra/interval_operations.py:12-161 | for valid inputs the engine succeeds, its output is in normal form, and a real is in the output exactly when the combiner on its memberships is true |
| IntervalSets.IntervalSet.Contains | src/clothesline/base/base_interval_set.py:66-72 | a value belongs exactly when some member interval contains it; infinities never belong |
| IntervalSets.AnyContains | src/clothesline/base/base_interval_set.py:72 | the `any` over the members is the existence of a containing member |
| IntervalSets.IntervalSet.Extension | src/clothesline/base/base_interval_set.py:74-94 | without a metric it fails with MetricNotImplemented; for a set in normal form it succeeds, is never -inf, and is +inf exactly when some member is unbounded; under the real metric a bounded set measures the sum of its members' lengths |
| IntervalSets.BoundedRealExtension | src/clothesline/base/base_interval_set.py:74-94 | under the real metric, the reduce from zero over bounded valid intervals is the sum of their lengths |
| IntervalSets.SumExtensions | src/clothesline/base/base_interval_set.py:81-92 | the reduce over valid intervals from a seed other than -inf succeeds, is never -inf, and is +inf exactly when the seed or some member is unbounded |
| IntervalSets.RealExtensionIsTotalLength | src/clothesline/base/base_interval_set.py:74-94 | under the real metric, the reduce over bounded valid intervals is the seed plus the sum of their lengths |
| IntervalSets.IntervalSet.Equals | src/clothesline/base/base_interval_set.py:96-101 | equality of sets is equality of their interval lists |
| IntervalSets.Operand.Members | src/clothesline/base/base_interval_set.py:127-130 | an operand's intervals are valid when it is, and cover exactly its values, whether it is a set or a bare interval |
| IntervalSets.NewIntervalSet | src/clothesline/base/base_interval_set.py:45-54 | the constructor yields normal form, holds exactly the values of its input, and keeps an input already in normal form unchanged |
| IntervalSets.CombineTwo | src/clothesline/base/base_interval_set.py:132-178 | a binary operation yields a set in normal form holding exactly the reals where the combiner on the two memberships is true |
| IntervalSets.Union | src/clothesline/base/base_interval_set.py:132-142 | a value is in the union exactly when it is in either operand |
| IntervalSets.Difference | src/clothesline/base/base_interval_set.py:144-154 | a value is in the difference exactly when it is in the set and not in the other operand |
| IntervalSets.Intersect | src/clothesline/base/base_interval_set.py:156-166 | a value is in the intersection exactly when it is in both operands |
| IntervalSets.Xor | src/clothesline/base/base_interval_set.py:168-178 | a value is in the exclusive or exactly when it is in one operand and not the other |
| IntervalSets.AllSet | src/clothesline/base/base_interval_set.py:184 | the whole-line set is the single interval (-inf, +inf) and holds every real |
| IntervalSets.EmptySet | src/clothesline/base/base_interval_set.py:188 | the empty set has no intervals and no values |
| IntervalSets.Complement | src/clothesline/base/base_interval_set.py:180-184 | a real is in the complement exactly when it is not in the set |
| IntervalSets.EqualIffSamePoints | src/clothesline/base/base_interval_set.py:96-101 | two sets in normal form are equal exactly when they hold the same values |
| IntervalSets.SupersetOf | src/clothesline/base/base_interval_set.py:186-188 | the test is true exactly when every value of the other set is a value of this set |
| IntervalSetLaws.UnionCommutes | src/clothesline/base/base_interval_set.py:132-142 | a + b and b + a are the same set |
| IntervalSetLaws.XorCommutes | src/clothesline/base/base_interval_set.py:168-178 | a ^ b and b ^ a are the same set |
| IntervalSetLaws.IntersectCommutes | src/clothesline/base/base_interval_set.py:156-166 | intersection is commutative |
| IntervalSetLaws.UnionAssociates | src/clothesline/base/base_interval_set.py:132-142 | (a + b) + c and a + (b + c) are the same set |
| IntervalSetLaws.ComplementOfUnion | src/clothesline/base/base_interval_set.py:180-184 | the complement of a + b is the intersection of the complements |
| IntervalSetLaws.ComplementOfIntersection | src/clothesline/base/base_interval_set.py:180-184 | the complement of the intersection of a and b is the union of the complements |
| IntervalSetLaws.DifferenceIsIntersectComplement | src/clothesline/base/base_interval_set.py:144-154 | a - b is the intersection of a with the complement of b |
| IntervalSetLaws.IntersectWithAll | tests/test_real_interval_set.py:160-167 | the whole line intersected with a set is that set |
| IntervalSetLaws.UnionIdempotent | src/clothesline/base/base_interval_set.py:45-54 | a set united with itself, and a set rebuilt from its own intervals, are the set itself |
| IntervalSetLaws.ComplementTwice | src/clothesline/base/base_interval_set.py:180-184 | the complement of the complement is the set |
| IntervalSetLaws.DifferenceWithSelf | src/clothesline/base/base_interval_set.py:144-154 | a set minus itself has no intervals, and every set is a superset of itself |
| IntervalSetLaws.SameValuesSameSet | tests/test_real_interval_set.py:67-87 | inputs holding the same values give equal sets, whatever their order, overlaps or splits |
| IntervalSetExamples.NormalizeFirst | tests/test_real_interval_set.py:101-106 | normalising (11,13), [10,12], (15,+inf), (13,14] gives [10,13), (13,14], (15,+inf) |
| IntervalSetExamples.NormalizeSecond | tests/test_real_interval_set.py:107-110 | normalising (10,11), [12,13], [8,8], (11,12) gives [8,8], (10,11), (11,13] |
| IntervalSetExamples.UnionOfBoth | tests/test_real_interval_set.py:112-121 | the union of those two sets, in both orders, is [8,8], [10,14], (15,+inf) |
| IntervalSetExamples.XorOperands | tests/test_real_interval_set.py:52-65 | the two exclusive-or operands are already in normal form and are kept as given |
| IntervalSetExamples.XorOfBoth | tests/test_real_interval_set.py:169-187 | their exclusive or, in both orders, is (-inf,-5), [-4,-3), [-2,2), (2,3), (3,+inf) |
| IntervalSetExamples.ComplementExample | tests/test_real_interval_set.py:189-201 | the complement of (-inf,-4), [-3,-1], [2,3) is [-4,-3), (-1,2), [3,+inf) |
| IntervalSetExamples.ExtensionExample | tests/test_interval_sets_metric.py:26-35 | the real-metric extension of [0,2) + (1,5] + (100,150) + [1000,1500] is 555 |
| IntervalSetExamples.UnboundedExtension | tests/test_interval_sets_metric.py:36-39 | the extension of (0,+inf) is +inf |
| IntervalSetExamples.EqualityExamples | tests/test_real_interval_set.py:67-78 | [10,11] + [11,12] equals [10,12]; (10,11) + (11,12) does not equal (10,12) |
| IntervalSetExamples.SupersetHolds | tests/test_real_interval_set.py:241-259 | the first normalised set contains (11,12) and [14,14] + [17,19] |
| IntervalSetExamples.SupersetFails | tests/test_real_interval_set.py:260-270 | it contains neither [13,13] nor (11,13) + [13,14] |
| IntervalSetExamples.DifferenceExample | tests/test_real_interval_set.py:123-133 | (-2,2) - (-1,1) is (-2,-1] + [1,2) |
| IntervalSetExamples.HybridUnionExample | tests/test_real_interval_set.py:210-218 | (-2,-1) + (1,+inf) united with the bare interval [-1,1] is (-2,+inf) |
| IntervalSetExamples.InsideFirst | tests/test_real_interval_set.py:238-260 | the coverage facts behind the superset checks: everything in (11,12), and everything in 14 + [17,19], lies in the first normalised set, and 13 does not |
| IntervalSetExamples.ContainsFirst | tests/test_real_interval_set.py:89-99 | the first normalised set holds 10, 11, 14 and 20 and does not hold 9, 13, 14.5, 15 or +inf |
| IntervalSetExamples.FirstMembership | tests/test_real_interval_set.py:89-99 | a real x is in the first normalised set exactly when 10 <= x < 13, 13 < x <= 14 or x > 15 |

## Left out

- The domain is fixed to the real numbers, with exact arithmetic. Domain plug-ins, datetime and string sets, and floating-point rounding are not modelled. A metric is a zero, an adder and a subtracter over reals.
- The `int_maker` argument of `combine_intervals` is not modelled. The engine builds `Interval` values directly, and the model proves each one valid, so the constructor's InvalidValue error cannot arise there.
- IntervalOperations.CombineIntervals: requires the combiner to give false when the value is in no list. Every set operation meets this. Other combiners are not modelled. With such a combiner, the source's answer is wrong in two ways, and neither is modelled:
  - when neither infinity is a marker, it silently leaves out the values outside the markers;
  - when -inf or +inf is a marker, it builds a peg that includes an infinity, and the peg constructor raises InvalidValueError.
- The combiner lambdas are the functions `First` (the default, `q[0]`), `Either`, `OnlyFirst`, `Both` and `ExactlyOne`. They are total functions on sequences of booleans, guarded by the operand count (`|q| > 0` or `|q| == 2`). They have no rows of their own; the rows of `NewIntervalSet`, `Union`, `Difference`, `Intersect` and `Xor` state what each one makes the engine compute.
- `Span` is a shorthand for writing intervals in the test vectors, not a model of the `interval` factory. `Whole` is the single interval of `AllSet`.
- IntervalSets.SupersetOf: the other operand is a set. The source calls it with sets only, and its `-` operator needs a set on the left.
- IntervalSets.IntervalSet.Equals: the `isinstance` check is not modelled, because the model has a single set type. The check makes a set unequal to an interval of the same values; the two are distinct Dafny types here.
- `__add__` and `__sub__` are aliases of union and difference and have no members of their own.
- The `intervals()` generator of a set is its `intervals` field.
- Serialisation is not part of this model: `to_dict`, `x_to_dict`, the serialising class and version, and the serialisation errors.
- Hashing and `__repr__`/`x_repr` are not part of this model.
- The builder DSL, the interval and interval-set factory utilities, the legacy top-level modules, and setup are not part of this model. The only factories modelled are `all` and `empty`, as `AllSet` and `EmptySet`. The helpers `Open`, `Closed`, `Point`, `HighSlice` and `LowSlice` mirror the interval factories `open`, `closed`, `point`, `high_slice` and `low_slice`; the slices' default of an excluded end value is written as an explicit argument.
- Python exceptions are `Failure` values of `Result`.
- IntervalSets.IntervalSet.Extension: for a set that is not in normal form, its contract says only what happens without a metric. The source never builds such a set.

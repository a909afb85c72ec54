/** Fan curves: a piecewise linear map from a sensor value to an output. */
module Curves {
  import opened Ids

  /** `f64::EPSILON`. */
  const EPSILON: real := 1.0 / 4503599627370496.0

  /** A floating-point number as far as a curve can tell: infinities and NaN are all refused alike. */
  datatype Number = Finite(value: real) | NonFinite

  datatype Point = Point(input: real, output: real)

  datatype CurveError = TooFewPoints | NotFinite | AmbiguousInputs

  datatype Built = Built(points: seq<Point>) | Refused(error: CurveError)

  predicate AllFinite(raw: seq<(Number, Number)>) {
    forall i | 0 <= i < |raw| :: raw[i].0.Finite? && raw[i].1.Finite?
  }

  /** The points as the caller listed them. */
  function PointsOf(raw: seq<(Number, Number)>): (points: seq<Point>)
    requires AllFinite(raw)
    ensures |points| == |raw|
  {
    if raw == [] then [] else PointsOf(raw[..|raw| - 1]) + [Point(raw[|raw| - 1].0.value, raw[|raw| - 1].1.value)]
  }

  /** What a curve is made of: at least two points, each at an input of its own, in order of input. */
  predicate Valid(points: seq<Point>) {
    |points| >= 2 && Increasing(points)
  }

  predicate Increasing(points: seq<Point>) {
    forall i, j | 0 <= i < j < |points| :: points[i].input < points[j].input
  }

  predicate SharesInput(points: seq<Point>) {
    exists i, j | 0 <= i < j < |points| :: points[i].input == points[j].input
  }

  /** What `new` promises for a list of points, in whatever order they come. */
  ghost predicate IsCurveOf(raw: seq<(Number, Number)>, r: Built) {
    if |raw| < 2 then r == Refused(TooFewPoints)
    else if !AllFinite(raw) then r == Refused(NotFinite)
    else if SharesInput(PointsOf(raw)) then r == Refused(AmbiguousInputs)
    else r.Built? && Valid(r.points) && multiset(r.points) == multiset(PointsOf(raw))
  }

  // ------------------------------------------------------------------ building

  /** Stable insertion by input. */
  function InsertPoint(p: Point, points: seq<Point>): seq<Point> {
    if points == [] || p.input < points[0].input then [p] + points
    else [points[0]] + InsertPoint(p, points[1..])
  }

  /** The stable sort by input. */
  function SortPoints(points: seq<Point>): seq<Point> {
    if points == [] then [] else InsertPoint(points[|points| - 1], SortPoints(points[..|points| - 1]))
  }

  ghost predicate Ordered(points: seq<Point>) {
    forall i, j | 0 <= i < j < |points| :: points[i].input <= points[j].input
  }

  lemma {:induction false} InsertPermutes(p: Point, points: seq<Point>)
    ensures multiset(InsertPoint(p, points)) == multiset(points) + multiset{p}
  {
    if points == [] || p.input < points[0].input {
    } else {
      InsertPermutes(p, points[1..]);
      assert points == [points[0]] + points[1..];
    }
  }

  lemma {:induction false} InsertOrders(p: Point, points: seq<Point>)
    requires Ordered(points)
    ensures Ordered(InsertPoint(p, points))
  {
    if points == [] || p.input < points[0].input {
    } else {
      InsertOrders(p, points[1..]);
      InsertPermutes(p, points[1..]);
      var rest := InsertPoint(p, points[1..]);
      forall j | 0 <= j < |rest| ensures points[0].input <= rest[j].input {
        assert rest[j] in multiset(rest);
        assert rest[j] == p || rest[j] in points[1..];
      }
    }
  }

  lemma {:induction false} SortKeeps(points: seq<Point>)
    ensures Ordered(SortPoints(points)) && multiset(SortPoints(points)) == multiset(points)
  {
    if points != [] {
      var n := |points| - 1;
      SortKeeps(points[..n]);
      InsertPermutes(points[n], SortPoints(points[..n]));
      InsertOrders(points[n], SortPoints(points[..n]));
      assert points == points[..n] + [points[n]];
    }
  }

  lemma {:induction false} CountedTwice(s: seq<Point>, i: nat, j: nat)
    requires i < j < |s| && s[i] == s[j]
    ensures multiset(s)[s[i]] >= 2
  {
    assert s == s[..j] + s[j..];
    assert s[i] in s[..j] && s[i] in s[j..];
    assert multiset(s) == multiset(s[..j]) + multiset(s[j..]);
  }

  /** Two points share an input in one list exactly when they do in any reordering of it. */
  lemma {:induction false} SharedInputs(a: seq<Point>, b: seq<Point>)
    requires multiset(a) == multiset(b)
    ensures SharesInput(a) ==> SharesInput(b)
  {
    if SharesInput(a) {
      var i, j :| 0 <= i < j < |a| && a[i].input == a[j].input;
      if a[i] == a[j] {
        CountedTwice(a, i, j);
        Twice(b, a[i]);
      } else {
        SharedElsewhere(b, a[i], a[j]);
      }
    }
  }

  lemma {:induction false} SharedElsewhere(b: seq<Point>, p: Point, q: Point)
    requires p in multiset(b) && q in multiset(b) && p != q && p.input == q.input
    ensures SharesInput(b)
  {
    var k :| 0 <= k < |b| && b[k] == p;
    var l :| 0 <= l < |b| && b[l] == q;
    assert b[if k < l then k else l].input == b[if k < l then l else k].input;
  }

  lemma {:induction false} Twice(s: seq<Point>, p: Point)
    requires multiset(s)[p] >= 2
    ensures SharesInput(s)
  {
    assert s == [s[0]] + s[1..];
    if s[0] == p {
      assert p in multiset(s[1..]);
      var k :| 0 <= k < |s[1..]| && s[1..][k] == p;
      assert s[k + 1] == p;
    } else {
      Twice(s[1..], p);
      var i, j :| 0 <= i < j < |s[1..]| && s[1..][i].input == s[1..][j].input;
      assert s[i + 1].input == s[j + 1].input;
    }
  }

  /** Neighbours strictly increase exactly when every pair does, and then no input is shared. */
  method CheckInputs(points: seq<Point>) returns (ok: bool)
    requires Ordered(points)
    ensures ok <==> !SharesInput(points)
    ensures ok ==> Increasing(points)
  {
    var i := 1;
    while i < |points|
      invariant 1 <= i
      invariant forall j, k | 0 <= j < k < i && k < |points| :: points[j].input < points[k].input
    {
      if points[i].input <= points[i - 1].input {
        return false;
      }
      assert forall j | 0 <= j < i :: points[j].input <= points[i - 1].input;
      i := i + 1;
    }
    return true;
  }

  method CollectPoints(raw: seq<(Number, Number)>) returns (points: seq<Point>, finite: bool)
    ensures finite <==> AllFinite(raw)
    ensures finite ==> points == PointsOf(raw)
  {
    points := [];
    for i := 0 to |raw|
      invariant AllFinite(raw[..i]) && points == PointsOf(raw[..i])
    {
      if !raw[i].0.Finite? || !raw[i].1.Finite? {
        return points, false;
      }
      assert raw[..i + 1][..i] == raw[..i];
      points := points + [Point(raw[i].0.value, raw[i].1.value)];
    }
    assert raw[..|raw|] == raw;
    finite := true;
  }

  /** Build a curve: collect the points, sort them by input, refuse what is ambiguous. */
  method New(raw: seq<(Number, Number)>) returns (r: Built)
    ensures IsCurveOf(raw, r)
  {
    if |raw| < 2 {
      return Refused(TooFewPoints);
    }
    var points, finite := CollectPoints(raw);
    if !finite {
      return Refused(NotFinite);
    }
    var sorted := SortPoints(points);
    SortKeeps(points);
    assert |multiset(sorted)| == |multiset(points)|;
    SharedInputs(sorted, points);
    SharedInputs(points, sorted);
    var distinct := CheckInputs(sorted);
    return if distinct then Built(sorted) else Refused(AmbiguousInputs);
  }

  /** Every point of `b` is at or above the first input of `a`. */
  lemma {:induction false} FirstIsLeast(a: seq<Point>, b: seq<Point>)
    requires multiset(a) == multiset(b) && a != []
    requires Increasing(a)
    ensures forall k | 0 <= k < |b| :: a[0].input <= b[k].input && (b[k].input == a[0].input ==> b[k] == a[0])
  {
    forall k | 0 <= k < |b|
      ensures a[0].input <= b[k].input && (b[k].input == a[0].input ==> b[k] == a[0])
    {
      assert b[k] in multiset(a);
      var i :| 0 <= i < |a| && a[i] == b[k];
    }
  }

  lemma {:induction false} TailMultiset(a: seq<Point>)
    requires a != []
    ensures multiset(a[1..]) == multiset(a) - multiset{a[0]}
    ensures Increasing(a) ==> Increasing(a[1..])
  {
    assert a == [a[0]] + a[1..];
  }

  lemma {:induction false} TailsMatch(a: seq<Point>, b: seq<Point>)
    requires a != [] && b != [] && a[0] == b[0] && multiset(a) == multiset(b)
    ensures multiset(a[1..]) == multiset(b[1..])
    ensures Increasing(a) ==> Increasing(a[1..])
    ensures Increasing(b) ==> Increasing(b[1..])
  {
    TailMultiset(a);
    TailMultiset(b);
  }

  /** Points listed in order of input and counted alike are the same list. */
  lemma {:induction false} OneOrder(a: seq<Point>, b: seq<Point>)
    requires multiset(a) == multiset(b)
    requires Increasing(a) && Increasing(b)
    ensures a == b
  {
    hide Increasing;
    assert |multiset(a)| == |multiset(b)|;
    if a != [] {
      FirstIsLeast(a, b);
      FirstIsLeast(b, a);
      assert a[0] == b[0];
      TailsMatch(a, b);
      OneOrder(a[1..], b[1..]);
      assert a == [a[0]] + a[1..] && b == [b[0]] + b[1..];
    }
  }

  lemma {:induction false} PointsOfMultiset(raw: seq<(Number, Number)>)
    requires AllFinite(raw)
    ensures forall p: Point :: multiset(PointsOf(raw))[p] == multiset(raw)[(Finite(p.input), Finite(p.output))]
  {
    if raw != [] {
      var n := |raw| - 1;
      PointsOfMultiset(raw[..n]);
      assert raw == raw[..n] + [raw[n]];
      var p := Point(raw[n].0.value, raw[n].1.value);
      assert PointsOf(raw) == PointsOf(raw[..n]) + [p];
      assert raw[n] == (Finite(p.input), Finite(p.output));
    }
  }

  /** The order the points are given in does not matter, to the curve or to the error. */
  lemma {:induction false} NewIgnoresOrder(raw: seq<(Number, Number)>, other: seq<(Number, Number)>, r: Built, s: Built)
    requires multiset(raw) == multiset(other)
    requires IsCurveOf(raw, r) && IsCurveOf(other, s)
    ensures r == s
  {
    assert |multiset(raw)| == |multiset(other)|;
    assert forall i | 0 <= i < |raw| :: raw[i] in multiset(other);
    assert forall i | 0 <= i < |other| :: other[i] in multiset(raw);
    if |raw| >= 2 && AllFinite(raw) {
      forall i | 0 <= i < |other| ensures other[i].0.Finite? && other[i].1.Finite? {
        assert other[i] in raw;
      }
      PointsOfMultiset(raw);
      PointsOfMultiset(other);
      var a, b := PointsOf(raw), PointsOf(other);
      assert multiset(a) == multiset(b);
      SharedInputs(a, b);
      SharedInputs(b, a);
      if !SharesInput(a) {
        OneOrder(r.points, s.points);
      }
    } else if |raw| >= 2 && AllFinite(other) {
      forall i | 0 <= i < |raw| ensures raw[i].0.Finite? && raw[i].1.Finite? {
        assert raw[i] in other;
      }
    }
  }

  function AsTuples(points: seq<Point>): (raw: seq<(Number, Number)>)
    ensures |raw| == |points|
  {
    if points == [] then []
    else AsTuples(points[..|points| - 1])
         + [(Finite(points[|points| - 1].input), Finite(points[|points| - 1].output))]
  }

  lemma {:induction false} TuplesArePoints(points: seq<Point>)
    ensures AllFinite(AsTuples(points)) && PointsOf(AsTuples(points)) == points
  {
    if points != [] {
      var n := |points| - 1;
      TuplesArePoints(points[..n]);
      assert AsTuples(points)[..n] == AsTuples(points[..n]);
      assert points == points[..n] + [points[n]];
    }
  }

  /** Writing a curve out and reading it back gives the curve. */
  lemma {:induction false} RebuildsItself(points: seq<Point>, r: Built)
    requires Valid(points)
    requires IsCurveOf(AsTuples(points), r)
    ensures r == Built(points)
  {
    TuplesArePoints(points);
    assert !SharesInput(points);
    OneOrder(r.points, points);
  }

  // ------------------------------------------------------------------ evaluating

  function MinOutput(points: seq<Point>): (m: real)
    requires points != []
    ensures forall k | 0 <= k < |points| :: m <= points[k].output
    ensures exists k | 0 <= k < |points| :: points[k].output == m
  {
    var last := points[|points| - 1].output;
    if |points| == 1 then last else
    var m := MinOutput(points[..|points| - 1]);
    if m <= last then
      assert forall k | 0 <= k < |points| - 1 :: points[..|points| - 1][k] == points[k];
      m
    else last
  }

  function MaxOutput(points: seq<Point>): (m: real)
    requires points != []
    ensures forall k | 0 <= k < |points| :: points[k].output <= m
    ensures exists k | 0 <= k < |points| :: points[k].output == m
  {
    var last := points[|points| - 1].output;
    if |points| == 1 then last else
    var m := MaxOutput(points[..|points| - 1]);
    if m >= last then
      assert forall k | 0 <= k < |points| - 1 :: points[..|points| - 1][k] == points[k];
      m
    else last
  }

  /** That part of a distance. */
  function Part(d: real, q: real): real {
    d * q
  }

  function Interpolate(low: Point, high: Point, x: real): real
    requires low.input < high.input
  {
    low.output + Part(high.output - low.output, (x - low.input) / (high.input - low.input))
  }

  predicate InSegment(points: seq<Point>, k: nat, x: real)
    requires k + 1 < |points|
  {
    points[k].input <= x <= points[k + 1].input
  }

  /** The first segment, at or after `from`, that holds `x`. */
  function Segment(points: seq<Point>, x: real, from: nat): (k: nat)
    requires Valid(points) && from + 1 < |points|
    requires points[from].input <= x < points[|points| - 1].input
    ensures from <= k && k + 1 < |points| && InSegment(points, k, x)
    ensures k > from ==> points[k].input < x
    decreases |points| - from
  {
    if x <= points[from + 1].input then from else Segment(points, x, from + 1)
  }

  /** The curve at a finite input: flat before the first point and after the last. */
  function EvalAt(points: seq<Point>, x: real): real
    requires Valid(points)
  {
    var n := |points| - 1;
    if x <= points[0].input then points[0].output
    else if x >= points[n].input then points[n].output
    else
      var k := Segment(points, x, 0);
      Interpolate(points[k], points[k + 1], x)
  }

  /** Evaluate the curve; a broken reading commands the least output. */
  method Eval(points: seq<Point>, input: Number) returns (output: real)
    requires Valid(points)
    ensures input.NonFinite? ==> output == MinOutput(points)
    ensures input.Finite? ==> output == EvalAt(points, input.value)
  {
    if input.NonFinite? {
      return MinOutput(points);
    }
    var x := input.value;
    if x <= points[0].input {
      return points[0].output;
    }
    var last := points[|points| - 1];
    if x >= last.input {
      return last.output;
    }
    output := last.output;
    var found := false;
    var i := 0;
    while i + 1 < |points| && !found
      invariant i < |points|
      invariant !found ==> points[i].input < x
      invariant !found && i + 1 < |points| ==> Segment(points, x, 0) == Segment(points, x, i)
      invariant found ==> output == EvalAt(points, x)
      decreases |points| - i, !found
    {
      if points[i].input <= x <= points[i + 1].input {
        output := Interpolate(points[i], points[i + 1], x);
        found := true;
      } else {
        i := i + 1;
      }
    }
  }

  lemma {:induction false} InterpolateEnds(low: Point, high: Point)
    requires low.input < high.input
    ensures Interpolate(low, high, low.input) == low.output
    ensures Interpolate(low, high, high.input) == high.output
  {
    PartEnds(high.output - low.output);
    Same(high.input - low.input);
    hide Part;
  }

  lemma {:induction false} PartEnds(d: real)
    ensures Part(d, 0.0) == 0.0 && Part(d, 1.0) == d
  {}

  lemma {:induction false} Same(d: real)
    requires d != 0.0
    ensures 0.0 / d == 0.0 && d / d == 1.0
  {}

  /** Which of two touching segments answers for their knee does not matter. */
  lemma {:induction false} OnSegment(points: seq<Point>, k: nat, x: real)
    requires Valid(points) && k + 1 < |points| && InSegment(points, k, x)
    ensures EvalAt(points, x) == Interpolate(points[k], points[k + 1], x)
  {
    InterpolateEnds(points[k], points[k + 1]);
    var n := |points| - 1;
    if x <= points[0].input {
      assert k == 0;
    } else if x >= points[n].input {
      assert k + 1 == n;
    } else {
      var j := Segment(points, x, 0);
      InterpolateEnds(points[j], points[j + 1]);
      if j < k {
        assert j + 1 == k;
      } else if k < j {
        assert false;
      }
    }
  }

  /** Over a distance `t` the output moves by `o`: between `a` and `b` per unit. */
  ghost predicate Moves(a: real, b: real, t: real, o: real) {
    a * t <= o <= b * t
  }

  /** Every segment rises by between `a` and `b` per unit of input. */
  ghost predicate SlopesWithin(points: seq<Point>, a: real, b: real) {
    forall k | 0 <= k < |points| - 1 :: SegmentWithin(points[k], points[k + 1], a, b)
  }

  ghost predicate SegmentWithin(low: Point, high: Point, a: real, b: real) {
    Moves(a, b, high.input - low.input, high.output - low.output)
  }

  lemma {:induction false} MovesOn(a: real, b: real, t: real, o: real, t': real, o': real)
    requires Moves(a, b, t, o) && Moves(a, b, t', o')
    ensures Moves(a, b, t + t', o + o')
  {
    assert a * (t + t') == a * t + a * t' && b * (t + t') == b * t + b * t';
  }

  lemma {:induction false} MovesFlat(a: real, b: real, t: real)
    requires a <= 0.0 <= b && t >= 0.0
    ensures Moves(a, b, t, 0.0)
  {}

  lemma {:induction false} MovesInPart(a: real, b: real, d: real, o: real, t: real, part: real)
    requires Moves(a, b, d, o) && t >= 0.0 && d > 0.0 && part == Part(o, t / d)
    ensures Moves(a, b, t, part)
  {
    var q := t / d;
    assert q >= 0.0 && t == q * d;
    assert a * t == (a * d) * q && b * t == (b * d) * q;
  }

  lemma {:induction false} PartsDiffer(d: real, p: real, q: real)
    ensures Part(d, p) - Part(d, q) == Part(d, p - q)
  {}

  lemma {:induction false} SharesDiffer(s: real, t: real, d: real)
    requires d != 0.0
    ensures s / d - t / d == (s - t) / d
  {}

  lemma {:induction false} InterpolateDifference(low: Point, high: Point, x: real, y: real)
    requires low.input < high.input
    ensures Interpolate(low, high, y) - Interpolate(low, high, x)
            == Part(high.output - low.output, (y - x) / (high.input - low.input))
  {
    var d := high.input - low.input;
    SharesDiffer(y - low.input, x - low.input, d);
    PartsDiffer(high.output - low.output, (y - low.input) / d, (x - low.input) / d);
    assert y - low.input - (x - low.input) == y - x;
    hide Part;
  }

  lemma {:induction false} InterpolateSlope(low: Point, high: Point, x: real, y: real, a: real, b: real)
    requires low.input < high.input && x <= y
    requires SegmentWithin(low, high, a, b)
    ensures Moves(a, b, y - x, Interpolate(low, high, y) - Interpolate(low, high, x))
  {
    hide Interpolate, Moves;
    InterpolateDifference(low, high, x, y);
    MovesInPart(a, b, high.input - low.input, high.output - low.output, y - x,
                Interpolate(low, high, y) - Interpolate(low, high, x));
  }

  /** From a knee upwards, across any number of further knees and the flat end. */
  lemma {:induction false} SlopeFromKnee(points: seq<Point>, k: nat, x: real, a: real, b: real)
    requires Valid(points) && k < |points| && points[k].input <= x
    requires SlopesWithin(points, a, b) && a <= 0.0 <= b
    ensures Moves(a, b, x - points[k].input, EvalAt(points, x) - points[k].output)
    decreases |points| - k
  {
    hide Interpolate, Moves;
    if k + 1 == |points| {
      MovesFlat(a, b, x - points[k].input);
      assert EvalAt(points, x) == points[k].output by {
        assert k == |points| - 1;
      }
    } else {
      assert SegmentWithin(points[k], points[k + 1], a, b);
      if x <= points[k + 1].input {
        OnSegment(points, k, x);
        InterpolateEnds(points[k], points[k + 1]);
        InterpolateSlope(points[k], points[k + 1], points[k].input, x, a, b);
      } else {
        SlopeFromKnee(points, k + 1, x, a, b);
        MovesOn(a, b, points[k + 1].input - points[k].input, points[k + 1].output - points[k].output,
                x - points[k + 1].input, EvalAt(points, x) - points[k + 1].output);
      }
    }
  }

  /** The whole curve, knees and flat ends included, changes no faster than its segments. */
  lemma {:induction false} SlopesBound(points: seq<Point>, x: real, y: real, a: real, b: real)
    requires Valid(points) && SlopesWithin(points, a, b) && a <= 0.0 <= b
    requires x <= y
    ensures a * (y - x) <= EvalAt(points, y) - EvalAt(points, x) <= b * (y - x)
  {
    assert Moves(a, b, y - x, EvalAt(points, y) - EvalAt(points, x)) by {
      hide Interpolate, Moves;
      var n := |points| - 1;
      if y <= points[0].input || x >= points[n].input {
        MovesFlat(a, b, y - x);
      } else if x <= points[0].input {
        SlopeFromKnee(points, 0, y, a, b);
        MovesFlat(a, b, points[0].input - x);
        MovesOn(a, b, points[0].input - x, 0.0, y - points[0].input, EvalAt(points, y) - points[0].output);
      } else {
        SlopeInside(points, x, y, a, b);
      }
    }
  }

  lemma {:induction false} SlopeInside(points: seq<Point>, x: real, y: real, a: real, b: real)
    requires Valid(points) && SlopesWithin(points, a, b) && a <= 0.0 <= b
    requires points[0].input <= x <= y && x < points[|points| - 1].input
    ensures Moves(a, b, y - x, EvalAt(points, y) - EvalAt(points, x))
  {
    hide Interpolate, Moves, EvalAt;
    var k := Segment(points, x, 0);
    var low, high := points[k], points[k + 1];
    OnSegment(points, k, x);
    if y <= high.input {
      OnSegment(points, k, y);
      InterpolateSlope(low, high, x, y, a, b);
    } else {
      InterpolateEnds(low, high);
      InterpolateSlope(low, high, x, high.input, a, b);
      SlopeFromKnee(points, k + 1, y, a, b);
      MovesOn(a, b, high.input - x, high.output - EvalAt(points, x), y - high.input, EvalAt(points, y) - high.output);
    }
  }

  predicate Rising(points: seq<Point>) {
    forall k | 0 <= k < |points| - 1 :: points[k].output <= points[k + 1].output
  }

  /** The steepest segment bounds how fast the curve can change anywhere. */
  lemma {:induction false} Lipschitz(points: seq<Point>, x: real, y: real, slope: real)
    requires Valid(points) && SlopesWithin(points, -slope, slope) && slope >= 0.0
    ensures Abs(EvalAt(points, x) - EvalAt(points, y)) <= slope * Abs(x - y)
  {
    hide SlopesWithin, EvalAt, Valid;
    if x <= y {
      SlopesBound(points, x, y, -slope, slope);
      assert -slope * (y - x) == -(slope * (y - x));
    } else {
      SlopesBound(points, y, x, -slope, slope);
      assert -slope * (x - y) == -(slope * (x - y));
    }
  }

  function Abs(x: real): (r: real)
    ensures r >= 0.0 && (r == x || r == -x)
  {
    if x < 0.0 then -x else x
  }

  /** Some slope bounds every segment. */
  lemma {:induction false} SomeSlope(points: seq<Point>) returns (slope: real)
    requires Valid(points)
    ensures slope >= 0.0 && SlopesWithin(points, -slope, slope)
  {
    slope := 0.0;
    var i := 0;
    while i + 1 < |points|
      invariant i < |points| && slope >= 0.0
      invariant forall k | 0 <= k < i :: SegmentWithin(points[k], points[k + 1], -slope, slope)
    {
      var d, o := points[i + 1].input - points[i].input, Abs(points[i + 1].output - points[i].output);
      var here := o / d;
      assert here * d == o;
      var wider := if here > slope then here else slope;
      forall k | 0 <= k <= i ensures SegmentWithin(points[k], points[k + 1], -wider, wider) {
        Widen(points[k], points[k + 1], if k == i then here else slope, wider);
      }
      slope := wider;
      i := i + 1;
    }
  }

  lemma {:induction false} Widen(low: Point, high: Point, slope: real, wider: real)
    requires low.input < high.input && slope <= wider
    requires SegmentWithin(low, high, -slope, slope)
    ensures SegmentWithin(low, high, -wider, wider)
  {
    var d := high.input - low.input;
    assert (wider - slope) * d >= 0.0;
    assert wider * d == slope * d + (wider - slope) * d;
    assert -wider * d == -slope * d - (wider - slope) * d;
  }

  /** A curve whose outputs rise never falls. */
  lemma {:induction false} EvalRises(points: seq<Point>, x: real, y: real)
    requires Valid(points) && Rising(points) && x <= y
    ensures EvalAt(points, x) <= EvalAt(points, y)
  {
    hide Valid, Rising, SlopesWithin, EvalAt;
    var slope := SomeSlope(points);
    RisingSlopes(points, slope);
    SlopesBound(points, x, y, 0.0, slope);
  }

  lemma {:induction false} RisingSlopes(points: seq<Point>, slope: real)
    requires Valid(points) && Rising(points) && slope >= 0.0 && SlopesWithin(points, -slope, slope)
    ensures SlopesWithin(points, 0.0, slope)
  {
    forall k | 0 <= k < |points| - 1 ensures SegmentWithin(points[k], points[k + 1], 0.0, slope) {
      assert SegmentWithin(points[k], points[k + 1], -slope, slope);
    }
  }

  /** Never below the least output, never above the greatest; no extrapolation. */
  lemma {:induction false} EvalBounded(points: seq<Point>, x: real)
    requires Valid(points)
    ensures MinOutput(points) <= EvalAt(points, x) <= MaxOutput(points)
  {
    var n := |points| - 1;
    if points[0].input < x < points[n].input {
      var k := Segment(points, x, 0);
      InterpolateBetween(points[k], points[k + 1], x);
    }
  }

  lemma {:induction false} Portion(d: real, q: real)
    requires 0.0 <= q <= 1.0
    ensures d >= 0.0 ==> 0.0 <= Part(d, q) <= d
    ensures d <= 0.0 ==> d <= Part(d, q) <= 0.0
  {}

  lemma {:induction false} Quotient(n: real, w: real)
    requires w != 0.0
    ensures Part(w, n / w) == n
    ensures 0.0 <= n <= w || w <= n <= 0.0 ==> 0.0 <= n / w <= 1.0
  {}

  lemma {:induction false} Cancel(q: real, w: real)
    requires w != 0.0
    ensures Part(w, q) / w == q
  {}

  lemma {:induction false} InterpolateBetween(low: Point, high: Point, x: real)
    requires low.input < high.input && low.input <= x <= high.input
    ensures low.output <= high.output ==> low.output <= Interpolate(low, high, x) <= high.output
    ensures high.output <= low.output ==> high.output <= Interpolate(low, high, x) <= low.output
  {
    var q := (x - low.input) / (high.input - low.input);
    Quotient(x - low.input, high.input - low.input);
    Portion(high.output - low.output, q);
    hide Part;
  }

  // ------------------------------------------------------------------ crossings

  predicate Steep(low: Point, high: Point) {
    Abs(high.output - low.output) > EPSILON
  }

  /** Does the output cross, or touch, `o` on this segment, and not along a flat one? */
  predicate Spans(low: Point, high: Point, o: real) {
    Steep(low, high) && (low.output <= o <= high.output || high.output <= o <= low.output)
  }

  function Inverse(low: Point, high: Point, o: real): real
    requires low.output != high.output
  {
    low.input + Part(high.input - low.input, (o - low.output) / (high.output - low.output))
  }

  lemma {:induction false} InverseOnSegment(low: Point, high: Point, o: real)
    requires low.input < high.input && Spans(low, high, o)
    ensures low.input <= Inverse(low, high, o) <= high.input
    ensures Interpolate(low, high, Inverse(low, high, o)) == o
  {
    var d, w := high.input - low.input, high.output - low.output;
    var q := (o - low.output) / w;
    Quotient(o - low.output, w);
    Portion(d, q);
    Cancel(q, d);
    hide Part;
    assert Inverse(low, high, o) - low.input == Part(d, q);
  }

  lemma {:induction false} InverseIsOnly(low: Point, high: Point, o: real, x: real)
    requires low.input < high.input && Steep(low, high)
    requires Interpolate(low, high, x) == o
    ensures x == Inverse(low, high, o)
  {
    var d, w := high.input - low.input, high.output - low.output;
    var q := (x - low.input) / d;
    Quotient(x - low.input, d);
    Cancel(q, w);
    hide Part;
    assert o - low.output == Part(w, q);
  }

  /** Is `y` on a segment the crossing search steps over, because it hardly moves? */
  ghost predicate OnFlat(points: seq<Point>, y: real) {
    exists k | 0 <= k < |points| - 1 :: InSegment(points, k, y) && !Steep(points[k], points[k + 1])
  }

  /**
   * The input where the curve reaches an output: an input of the curve that gives that output,
   * and no earlier one does except along a segment that hardly moves.
   */
  method InputForOutput(points: seq<Point>, o: real) returns (r: Option<real>)
    requires Valid(points)
    ensures r.Some? <==> exists k | 0 <= k < |points| - 1 ::
      && Abs(points[k + 1].output - points[k].output) > EPSILON
      && (points[k].output <= o <= points[k + 1].output || points[k + 1].output <= o <= points[k].output)
    ensures r.Some? ==> points[0].input <= r.value <= points[|points| - 1].input && EvalAt(points, r.value) == o
    ensures r.Some? ==> forall y | points[0].input <= y < r.value && EvalAt(points, y) == o :: OnFlat(points, y)
  {
    var i := 0;
    while i + 1 < |points|
      invariant i < |points|
      invariant forall k | 0 <= k < i :: !Spans(points[k], points[k + 1], o)
    {
      var low, high := points[i], points[i + 1];
      if Spans(low, high, o) {
        InverseOnSegment(low, high, o);
        r := Some(Inverse(low, high, o));
        OnSegment(points, i, r.value);
        forall y | points[0].input <= y < r.value && EvalAt(points, y) == o ensures OnFlat(points, y) {
          NoEarlierCrossing(points, i, o, y);
        }
        return;
      }
      i := i + 1;
    }
    r := None;
  }

  lemma {:induction false} NoEarlierCrossing(points: seq<Point>, i: nat, o: real, y: real)
    requires Valid(points) && i + 1 < |points| && Spans(points[i], points[i + 1], o)
    requires forall k | 0 <= k < i :: !Spans(points[k], points[k + 1], o)
    requires points[0].input <= y < Inverse(points[i], points[i + 1], o) && EvalAt(points, y) == o
    ensures OnFlat(points, y)
  {
    InverseOnSegment(points[i], points[i + 1], o);
    var j := Segment(points, y, 0);
    OnSegment(points, j, y);
    if Steep(points[j], points[j + 1]) {
      InverseIsOnly(points[j], points[j + 1], o, y);
      InterpolateBetween(points[j], points[j + 1], y);
      assert Spans(points[j], points[j + 1], o);
      assert false;
    }
  }

  /** A curve that moves at all, and whose segments are level or steep, reaches every output in between. */
  lemma {:induction false} EveryOutputIsReached(points: seq<Point>, steep: nat, o: real)
    requires Valid(points) && MinOutput(points) <= o <= MaxOutput(points)
    requires forall k | 0 <= k < |points| - 1 :: points[k].output == points[k + 1].output || Steep(points[k], points[k + 1])
    requires steep + 1 < |points| && Steep(points[steep], points[steep + 1])
    ensures exists k | 0 <= k < |points| - 1 :: Spans(points[k], points[k + 1], o)
  {
    if forall k | 0 <= k < |points| - 1 :: !Spans(points[k], points[k + 1], o) {
      assert !Spans(points[steep], points[steep + 1], o);
      var above := points[steep].output > o;
      var i := steep;
      while i + 1 < |points|
        invariant steep <= i < |points|
        invariant forall k | steep <= k <= i :: if above then points[k].output > o else points[k].output < o
      {
        assert !Spans(points[i], points[i + 1], o);
        i := i + 1;
      }
      var j := steep;
      while j > 0
        invariant 0 <= j <= steep
        invariant forall k | j <= k < |points| :: if above then points[k].output > o else points[k].output < o
      {
        assert !Spans(points[j - 1], points[j], o);
        j := j - 1;
      }
      assert false;
    }
  }
}

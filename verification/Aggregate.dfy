/** Cross-child aggregation of a sweep's metric at matched steps. Values are reals; the variance stands for its root, the deviation. */
module Aggregate {

  datatype MetricPoint = MetricPoint(step: nat, value: real)

  /** A step of the sorted map the points are collected in. */
  datatype Bucket = Bucket(step: nat, values: seq<real>)

  datatype AggregatePoint = AggregatePoint(step: nat, n: nat, mean: real, variance: real, min: real, max: real)

  function Flatten(series: seq<seq<MetricPoint>>): seq<MetricPoint> {
    if series == [] then [] else series[0] + Flatten(series[1..])
  }

  /** The values reported at a step, in the order they were reported. */
  function ValuesAt(points: seq<MetricPoint>, step: nat): seq<real>
  {
    if points == [] then []
    else
      var last := points[|points| - 1];
      ValuesAt(points[..|points| - 1], step) + if last.step == step then [last.value] else []
  }

  // ---------------------------------------------------------------------
  // Collecting by step
  // ---------------------------------------------------------------------

  predicate Sorted(buckets: seq<Bucket>) {
    && (forall i, j :: 0 <= i < j < |buckets| ==> buckets[i].step < buckets[j].step)
    && (forall i :: 0 <= i < |buckets| ==> buckets[i].values != [])
  }

  function Get(buckets: seq<Bucket>, step: nat): seq<real> {
    if buckets == [] then [] else if buckets[0].step == step then buckets[0].values else Get(buckets[1..], step)
  }

  function Count(buckets: seq<Bucket>): nat {
    if buckets == [] then 0 else |buckets[0].values| + Count(buckets[1..])
  }

  /** Push a value to its step's bucket, making the bucket if there is none. */
  function Add(buckets: seq<Bucket>, step: nat, value: real): seq<Bucket> {
    if buckets == [] || step < buckets[0].step then [Bucket(step, [value])] + buckets
    else if step == buckets[0].step then [Bucket(step, buckets[0].values + [value])] + buckets[1..]
    else [buckets[0]] + Add(buckets[1..], step, value)
  }

  lemma ConsSorted(b: Bucket, buckets: seq<Bucket>)
    requires Sorted(buckets) && b.values != [] && (buckets != [] ==> b.step < buckets[0].step)
    ensures Sorted([b] + buckets)
  {
  }

  lemma {:induction false} AddSorted(buckets: seq<Bucket>, step: nat, value: real)
    requires Sorted(buckets)
    ensures Sorted(Add(buckets, step, value)) && Add(buckets, step, value) != []
    ensures Add(buckets, step, value)[0].step == if buckets == [] || step < buckets[0].step then step else buckets[0].step
  {
    if buckets == [] || step < buckets[0].step {
      ConsSorted(Bucket(step, [value]), buckets);
    } else if step == buckets[0].step {
      ConsSorted(Bucket(step, buckets[0].values + [value]), buckets[1..]);
    } else {
      AddSorted(buckets[1..], step, value);
      ConsSorted(buckets[0], Add(buckets[1..], step, value));
    }
  }

  lemma {:induction false} AddCounts(buckets: seq<Bucket>, step: nat, value: real)
    ensures Count(Add(buckets, step, value)) == Count(buckets) + 1
  {
    if buckets != [] && step > buckets[0].step {
      AddCounts(buckets[1..], step, value);
      assert Add(buckets, step, value)[1..] == Add(buckets[1..], step, value);
    } else {
      assert Add(buckets, step, value)[1..] == if buckets == [] || step < buckets[0].step then buckets else buckets[1..];
    }
  }

  /** The value comes last in its own bucket, and no other bucket changes. */
  lemma {:induction false} AddGets(buckets: seq<Bucket>, step: nat, value: real, t: nat)
    requires Sorted(buckets)
    ensures Get(Add(buckets, step, value), t) == Get(buckets, t) + if t == step then [value] else []
  {
    if buckets == [] || step < buckets[0].step {
      LowerHasNone(buckets, step);
      assert Add(buckets, step, value)[1..] == buckets;
    } else if step == buckets[0].step {
      assert Add(buckets, step, value)[1..] == buckets[1..];
    } else {
      AddGets(buckets[1..], step, value, t);
      assert Add(buckets, step, value)[1..] == Add(buckets[1..], step, value);
    }
  }

  lemma {:induction false} LowerHasNone(buckets: seq<Bucket>, step: nat)
    requires Sorted(buckets) && (buckets != [] ==> step < buckets[0].step)
    ensures Get(buckets, step) == []
  {
    if buckets != [] {
      LowerHasNone(buckets[1..], step);
    }
  }

  /** A sorted list of buckets lists exactly the steps it has values for. */
  lemma {:induction false} GetIsListed(buckets: seq<Bucket>, step: nat)
    requires Sorted(buckets)
    ensures Get(buckets, step) != [] <==> exists i :: 0 <= i < |buckets| && buckets[i].step == step
    ensures forall i :: 0 <= i < |buckets| && buckets[i].step == step ==> Get(buckets, step) == buckets[i].values
  {
    if buckets != [] {
      GetIsListed(buckets[1..], step);
      assert forall i :: 0 < i < |buckets| ==> buckets[i] == buckets[1..][i - 1];
    }
  }

  // ---------------------------------------------------------------------
  // Statistics
  // ---------------------------------------------------------------------

  function SumOf(values: seq<real>, f: real -> real): real {
    if values == [] then 0.0 else f(values[0]) + SumOf(values[1..], f)
  }

  function Itself(): real -> real {
    v => v
  }

  function SquaredFrom(c: real): real -> real {
    v => (v - c) * (v - c)
  }

  function Sum(values: seq<real>): real {
    SumOf(values, Itself())
  }

  /** Sum of squared distances from `c`. */
  function SumSquares(values: seq<real>, c: real): real {
    SumOf(values, SquaredFrom(c))
  }

  function MinOf(values: seq<real>): (m: real)
    requires values != []
    ensures m in values && forall v :: v in values ==> m <= v
  {
    if |values| == 1 then values[0]
    else
      var rest := MinOf(values[1..]);
      assert values == [values[0]] + values[1..];
      if values[0] <= rest then values[0] else rest
  }

  function MaxOf(values: seq<real>): (m: real)
    requires values != []
    ensures m in values && forall v :: v in values ==> v <= m
  {
    if |values| == 1 then values[0]
    else
      var rest := MaxOf(values[1..]);
      assert values == [values[0]] + values[1..];
      if values[0] >= rest then values[0] else rest
  }

  function Mean(values: seq<real>): real
    requires values != []
  {
    Sum(values) / |values| as real
  }

  function Variance(values: seq<real>): real
    requires values != []
  {
    SumSquares(values, Mean(values)) / |values| as real
  }

  function Summary(b: Bucket): AggregatePoint
    requires b.values != []
  {
    AggregatePoint(b.step, |b.values|, Mean(b.values), Variance(b.values), MinOf(b.values), MaxOf(b.values))
  }

  lemma {:induction false} SumBounds(values: seq<real>, low: real, high: real)
    requires forall v :: v in values ==> low <= v <= high
    ensures low * |values| as real <= Sum(values) <= high * |values| as real
  {
    if values != [] {
      assert values[0] in values && forall v :: v in values[1..] ==> v in values;
      SumBounds(values[1..], low, high);
    }
  }

  lemma {:induction false} SumAtMost(values: seq<real>, f: real -> real, g: real -> real)
    requires forall i :: 0 <= i < |values| ==> f(values[i]) <= g(values[i])
    ensures SumOf(values, f) <= SumOf(values, g)
  {
    if values != [] {
      SumAtMost(values[1..], f, g);
    }
  }

  lemma {:induction false} SumNonNegative(values: seq<real>, f: real -> real)
    requires forall i :: 0 <= i < |values| ==> f(values[i]) >= 0.0
    ensures SumOf(values, f) >= 0.0
  {
    if values != [] {
      SumNonNegative(values[1..], f);
    }
  }

  /** A line through `(c, p)` with slope `q`. */
  function Line(c: real, p: real, q: real): real -> real {
    v => p + q * (v - c)
  }

  lemma Distribute(q: real, a: real, b: real)
    ensures q * (a + b) == q * a + q * b
  {
  }

  lemma {:induction false} SumOfLine(values: seq<real>, c: real, p: real, q: real)
    ensures SumOf(values, Line(c, p, q)) == |values| as real * p + q * (Sum(values) - |values| as real * c)
  {
    if values != [] {
      var n := |values[1..]| as real;
      SumOfLine(values[1..], c, p, q);
      assert (n + 1.0) * p == n * p + p && (n + 1.0) * c == n * c + c;
      Distribute(q, values[0] - c, Sum(values[1..]) - n * c);
    }
  }

  lemma NonNegative(a: real, b: real)
    requires a >= 0.0 && b >= 0.0
    ensures a * b >= 0.0
  {
  }

  lemma Square(a: real)
    ensures a * a >= 0.0
  {
  }

  /** Between two bounds the square of the distance from `c` lies under the line that meets it at the bounds. */
  lemma SquareUnderLine(v: real, c: real, low: real, high: real)
    requires low <= v <= high
    ensures (v - c) * (v - c) <= (high - c) * (c - low) + (high + low - 2.0 * c) * (v - c)
  {
    NonNegative(high - v, v - low);
    assert (high - v) * (v - low) == (high - c) * (c - low) + (high + low - 2.0 * c) * (v - c) - (v - c) * (v - c);
  }

  lemma {:induction false} SquaresUnderLine(values: seq<real>, low: real, high: real, c: real, p: real, q: real)
    requires forall i :: 0 <= i < |values| ==> low <= values[i] <= high
    requires p == (high - c) * (c - low) && q == high + low - 2.0 * c
    ensures 0.0 <= SumOf(values, SquaredFrom(c)) <= SumOf(values, Line(c, p, q))
  {
    forall i | 0 <= i < |values|
      ensures 0.0 <= SquaredFrom(c)(values[i]) <= Line(c, p, q)(values[i])
    {
      Square(values[i] - c);
      SquareUnderLine(values[i], c, low, high);
    }
    SumNonNegative(values, SquaredFrom(c));
    SumAtMost(values, SquaredFrom(c), Line(c, p, q));
  }

  lemma {:induction false} LineAtMean(values: seq<real>, c: real, p: real, q: real)
    requires Sum(values) - |values| as real * c == 0.0
    ensures SumOf(values, Line(c, p, q)) == |values| as real * p
  {
    SumOfLine(values, c, p, q);
    assert q * (Sum(values) - |values| as real * c) == 0.0;
  }

  /** Around a point whose multiple is the sum, distances to the bounds bound the squares. */
  lemma SquaresBounded(values: seq<real>, low: real, high: real, c: real, p: real)
    requires forall v :: v in values ==> low <= v <= high
    requires Sum(values) - |values| as real * c == 0.0 && p == (high - c) * (c - low)
    ensures 0.0 <= SumSquares(values, c) <= |values| as real * p
  {
    forall i | 0 <= i < |values|
      ensures low <= values[i] <= high
    {
      assert values[i] in values;
    }
    SquaresUnderLine(values, low, high, c, p, high + low - 2.0 * c);
    LineAtMean(values, c, p, high + low - 2.0 * c);
  }

  lemma MeanTimes(sum: real, n: real)
    requires n > 0.0
    ensures sum - n * (sum / n) == 0.0
  {
  }

  lemma ShiftStep(v: real, c: real, m: real, sum: real, n: real)
    ensures (v - c) * (v - c) + 2.0 * (m - c) * (sum - n * m) + n * (m - c) * (m - c)
         == (v - m) * (v - m) + 2.0 * (m - c) * (v + sum - (n + 1.0) * m) + (n + 1.0) * (m - c) * (m - c)
  {
    var d := m - c;
    assert v - c == (v - m) + d;
    assert (v - c) * (v - c) == (v - m) * (v - m) + 2.0 * d * (v - m) + d * d;
    assert 2.0 * d * (v + sum - (n + 1.0) * m) == 2.0 * d * (v - m) + 2.0 * d * (sum - n * m);
    assert (n + 1.0) * d * d == n * d * d + d * d;
  }

  /** Measured from another point, the squares grow by the distance between the two. */
  lemma {:induction false} SquaresShift(values: seq<real>, c: real, m: real)
    ensures SumSquares(values, c)
         == SumSquares(values, m) + 2.0 * (m - c) * (Sum(values) - |values| as real * m) + |values| as real * (m - c) * (m - c)
  {
    if values != [] {
      SquaresShift(values[1..], c, m);
      ShiftStep(values[0], c, m, Sum(values[1..]), |values[1..]| as real);
    }
  }

  lemma {:induction false} SumsOfOneMore(values: seq<real>, v: real, c: real)
    ensures Sum([]) == 0.0 && Sum(values + [v]) == Sum(values) + v
    ensures SumSquares([], c) == 0.0 && SumSquares(values + [v], c) == SumSquares(values, c) + (v - c) * (v - c)
  {
    if values == [] {
      assert (values + [v])[1..] == [];
    } else {
      SumsOfOneMore(values[1..], v, c);
      assert (values + [v])[1..] == values[1..] + [v];
    }
  }

  /** What the count and the mean of a step are: mean times count is the sum. */
  lemma FiguresOf(b: Bucket)
    requires b.values != []
    ensures Summary(b).step == b.step && Summary(b).n == |b.values|
    ensures Summary(b).mean * |b.values| as real == Sum(b.values)
  {
    MeanOf(b.values);
  }

  /** What its variance is: variance times count is the sum of the squares around the mean. */
  lemma VarianceOfBucket(b: Bucket)
    requires b.values != []
    ensures Summary(b).variance * |b.values| as real == SumSquares(b.values, Summary(b).mean)
  {
    VarianceOf(b.values);
  }

  lemma MeanOf(values: seq<real>)
    requires values != []
    ensures Mean(values) * |values| as real == Sum(values)
  {
    Multiplies(Sum(values), |values| as real);
  }

  lemma VarianceOf(values: seq<real>)
    requires values != []
    ensures Variance(values) * |values| as real == SumSquares(values, Mean(values))
  {
    Multiplies(SumSquares(values, Mean(values)), |values| as real);
  }

  /** The extremes of a step are values of it, and no value is beyond them. */
  lemma ExtremesOf(b: Bucket)
    requires b.values != []
    ensures var s := Summary(b); s.min in b.values && s.max in b.values && forall v :: v in b.values ==> s.min <= v <= s.max
  {
  }

  /** Around any point but the mean the squares are greater, by the square of its distance from the mean for each value. */
  lemma {:induction false} MeanIsNearest(values: seq<real>, c: real, m: real)
    requires m * |values| as real == Sum(values)
    ensures SumSquares(values, c) == SumSquares(values, m) + |values| as real * (m - c) * (m - c)
  {
    SquaresShift(values, c, m);
    Vanishes(2.0 * (m - c), Sum(values) - |values| as real * m);
  }

  lemma Multiplies(x: real, n: real)
    requires n > 0.0
    ensures x / n * n == x
  {
  }

  lemma Vanishes(x: real, zero: real)
    requires zero == 0.0
    ensures x * zero == 0.0
  {
  }

  /** The mean lies between the extremes, and the variance is at most the product of its distances to them. */
  predicate Bounded(low: real, mean: real, high: real, variance: real) {
    low <= mean <= high && 0.0 <= variance <= (high - mean) * (mean - low)
  }

  lemma {:induction false} BoundedAt(values: seq<real>, low: real, high: real, c: real)
    requires values != [] && forall v :: v in values ==> low <= v <= high
    requires c == Sum(values) / |values| as real
    ensures Bounded(low, c, high, SumSquares(values, c) / |values| as real)
  {
    var p := (high - c) * (c - low);
    SumBounds(values, low, high);
    MeanTimes(Sum(values), |values| as real);
    SquaresBounded(values, low, high, c, p);
    Scaled(|values| as real, Sum(values), SumSquares(values, c), low, high, p);
  }

  lemma {:induction false} StatisticsBounded(b: Bucket)
    requires b.values != []
    ensures var s := Summary(b); Bounded(s.min, s.mean, s.max, s.variance)
  {
    BoundedAt(b.values, MinOf(b.values), MaxOf(b.values), Mean(b.values));
  }

  lemma Scaled(n: real, sum: real, squares: real, low: real, high: real, p: real)
    requires n > 0.0 && low * n <= sum <= high * n && 0.0 <= squares <= n * p
    ensures low <= sum / n <= high && 0.0 <= squares / n <= p
  {
    QuotientBetween(sum, low, high, n);
    QuotientBetween(squares, 0.0, p, n);
  }

  lemma QuotientBetween(x: real, low: real, high: real, n: real)
    requires n > 0.0 && low * n <= x <= n * high
    ensures low <= x / n <= high
  {
    Divide(x, high, n);
    Divide(-x, -low, n);
  }

  lemma Divide(x: real, p: real, n: real)
    requires n > 0.0 && x <= n * p
    ensures x / n <= p
  {
  }

  // ---------------------------------------------------------------------
  // Order does not matter
  // ---------------------------------------------------------------------

  function Without<T>(s: seq<T>, j: nat): seq<T>
    requires j < |s|
  {
    s[..j] + s[j + 1..]
  }

  lemma WithoutMultiset<T>(s: seq<T>, j: nat)
    requires j < |s|
    ensures multiset(Without(s, j)) == multiset(s) - multiset{s[j]}
  {
    assert s == s[..j] + [s[j]] + s[j + 1..];
  }

  lemma {:induction false} SumWithout(values: seq<real>, j: nat, f: real -> real)
    requires j < |values|
    ensures SumOf(values, f) == f(values[j]) + SumOf(Without(values, j), f)
  {
    if j == 0 {
      assert Without(values, 0) == values[1..];
    } else {
      SumWithout(values[1..], j - 1, f);
      assert Without(values, j) == [values[0]] + Without(values[1..], j - 1);
    }
  }

  /** Sums depend on the values as a multiset only. */
  lemma {:induction false} SumOfMultiset(values: seq<real>, others: seq<real>, f: real -> real)
    requires multiset(values) == multiset(others)
    ensures SumOf(values, f) == SumOf(others, f)
    decreases |values|
  {
    if values == [] {
      assert |multiset(others)| == 0;
    } else {
      assert values[0] in multiset(others);
      var j :| 0 <= j < |others| && others[j] == values[0];
      WithoutMultiset(others, j);
      WithoutMultiset(values, 0);
      assert Without(values, 0) == values[1..];
      SumOfMultiset(values[1..], Without(others, j), f);
      SumWithout(others, j, f);
    }
  }

  lemma SummaryOfMultiset(b: Bucket, other: Bucket)
    requires b.values != [] && other.values != [] && b.step == other.step && multiset(b.values) == multiset(other.values)
    ensures Summary(b) == Summary(other)
  {
    assert |multiset(b.values)| == |b.values| && |multiset(other.values)| == |other.values|;
    SumOfMultiset(b.values, other.values, Itself());
    SumOfMultiset(b.values, other.values, SquaredFrom(Mean(b.values)));
    SameMembers(b.values, other.values);
  }

  lemma SameMembers(values: seq<real>, others: seq<real>)
    requires multiset(values) == multiset(others)
    ensures forall v :: v in values <==> v in others
  {
    assert forall v :: v in values <==> v in multiset(values);
    assert forall v :: v in others <==> v in multiset(others);
  }

  lemma {:induction false} ValuesAtJoin(points: seq<MetricPoint>, more: seq<MetricPoint>, step: nat)
    ensures ValuesAt(points + more, step) == ValuesAt(points, step) + ValuesAt(more, step)
    decreases |more|
  {
    if more == [] {
      assert points + more == points;
    } else {
      var last := |more| - 1;
      ValuesAtJoin(points, more[..last], step);
      assert (points + more)[..|points + more| - 1] == points + more[..last];
    }
  }

  /** Taking one child out takes out its values. */
  lemma {:induction false} FlattenWithout(series: seq<seq<MetricPoint>>, j: nat, step: nat)
    requires j < |series|
    ensures multiset(ValuesAt(Flatten(series), step))
         == multiset(ValuesAt(series[j], step)) + multiset(ValuesAt(Flatten(Without(series, j)), step))
  {
    var rest := series[1..];
    FlattenValues(series, step);
    if j == 0 {
      assert Without(series, 0) == rest;
    } else {
      FlattenWithout(rest, j - 1, step);
      assert Without(series, j)[0] == series[0] && Without(series, j)[1..] == Without(rest, j - 1);
      FlattenValues(Without(series, j), step);
    }
  }

  lemma {:induction false} FlattenValues(series: seq<seq<MetricPoint>>, step: nat)
    requires series != []
    ensures multiset(ValuesAt(Flatten(series), step))
         == multiset(ValuesAt(series[0], step)) + multiset(ValuesAt(Flatten(series[1..]), step))
  {
    ValuesAtJoin(series[0], Flatten(series[1..]), step);
  }

  /** Reordering the children reorders the values at each step, no more. */
  lemma {:induction false} ValuesOfReordered(series: seq<seq<MetricPoint>>, others: seq<seq<MetricPoint>>, step: nat)
    requires multiset(series) == multiset(others)
    ensures multiset(ValuesAt(Flatten(series), step)) == multiset(ValuesAt(Flatten(others), step))
    decreases |series|
  {
    if series == [] {
      assert |multiset(others)| == 0;
    } else {
      assert series[0] in multiset(others);
      var j :| 0 <= j < |others| && others[j] == series[0];
      WithoutMultiset(others, j);
      WithoutMultiset(series, 0);
      assert Without(series, 0) == series[1..];
      ValuesOfReordered(series[1..], Without(others, j), step);
      FlattenWithout(others, j, step);
      FlattenWithout(series, 0, step);
    }
  }

  // ---------------------------------------------------------------------
  // The aggregation
  // ---------------------------------------------------------------------

  /** The aggregate of these points: strictly ascending steps, exactly the reported ones, each with the statistics of its values. */
  ghost predicate Aggregates(points: seq<MetricPoint>, result: seq<AggregatePoint>) {
    && (forall i, j :: 0 <= i < j < |result| ==> result[i].step < result[j].step)
    && (forall i :: 0 <= i < |result| ==>
          var values := ValuesAt(points, result[i].step); values != [] && result[i] == Summary(Bucket(result[i].step, values)))
    && (forall step: nat :: ValuesAt(points, step) != [] ==> exists i :: 0 <= i < |result| && result[i].step == step)
  }

  function TotalCount(result: seq<AggregatePoint>): nat {
    if result == [] then 0 else result[0].n + TotalCount(result[1..])
  }

  /** The buckets hold exactly these points. */
  ghost predicate Collected(points: seq<MetricPoint>, buckets: seq<Bucket>) {
    Sorted(buckets) && Count(buckets) == |points| && forall step: nat :: Get(buckets, step) == ValuesAt(points, step)
  }

  lemma {:induction false} CollectOne(points: seq<MetricPoint>, buckets: seq<Bucket>, p: MetricPoint)
    requires Collected(points, buckets)
    ensures Collected(points + [p], Add(buckets, p.step, p.value))
  {
    assert (points + [p])[..|points|] == points;
    AddSorted(buckets, p.step, p.value);
    AddCounts(buckets, p.step, p.value);
    forall step: nat
      ensures Get(Add(buckets, p.step, p.value), step) == ValuesAt(points + [p], step)
    {
      AddGets(buckets, p.step, p.value, step);
    }
  }

  lemma {:induction false} FlattenOneMore(series: seq<seq<MetricPoint>>, child: seq<MetricPoint>)
    ensures Flatten(series + [child]) == Flatten(series) + child
  {
    if series == [] {
      assert ([] + [child])[1..] == [];
      assert Flatten([child]) == child + Flatten([child][1..]);
    } else {
      FlattenOneMore(series[1..], child);
      assert (series + [child])[1..] == series[1..] + [child];
    }
  }

  function Summaries(buckets: seq<Bucket>): (result: seq<AggregatePoint>)
    requires Sorted(buckets)
    ensures |result| == |buckets| && TotalCount(result) == Count(buckets)
    ensures forall i :: 0 <= i < |buckets| ==> result[i] == Summary(buckets[i])
  {
    if buckets == [] then [] else
      var result := [Summary(buckets[0])] + Summaries(buckets[1..]);
      assert result[1..] == Summaries(buckets[1..]);
      result
  }

  lemma {:induction false} SummariesAggregate(points: seq<MetricPoint>, buckets: seq<Bucket>)
    requires Collected(points, buckets)
    ensures Aggregates(points, Summaries(buckets))
  {
    var result := Summaries(buckets);
    forall i | 0 <= i < |result|
      ensures buckets[i].values == ValuesAt(points, result[i].step)
    {
      GetIsListed(buckets, result[i].step);
    }
    forall step: nat | ValuesAt(points, step) != []
      ensures exists i :: 0 <= i < |result| && result[i].step == step
    {
      GetIsListed(buckets, step);
      var i :| 0 <= i < |buckets| && buckets[i].step == step;
      assert result[i].step == step;
    }
  }

  /** Every step any child reported, with how many points matched there. */
  method AggregateSeries(series: seq<seq<MetricPoint>>) returns (result: seq<AggregatePoint>)
    ensures Aggregates(Flatten(series), result)
    ensures TotalCount(result) == |Flatten(series)|
  {
    var buckets: seq<Bucket> := [];
    var i := 0;
    while i < |series|
      invariant 0 <= i <= |series| && Collected(Flatten(series[..i]), buckets)
    {
      var k := 0;
      assert Flatten(series[..i]) + series[i][..0] == Flatten(series[..i]);
      while k < |series[i]|
        invariant 0 <= k <= |series[i]| && Collected(Flatten(series[..i]) + series[i][..k], buckets)
      {
        var p := series[i][k];
        CollectOne(Flatten(series[..i]) + series[i][..k], buckets, p);
        assert Flatten(series[..i]) + series[i][..k + 1] == Flatten(series[..i]) + series[i][..k] + [p];
        buckets := Add(buckets, p.step, p.value);
        k := k + 1;
      }
      FlattenOneMore(series[..i], series[i]);
      assert series[..i + 1] == series[..i] + [series[i]] && series[i][..k] == series[i];
      i := i + 1;
    }
    assert series[..i] == series;
    SummariesAggregate(Flatten(series), buckets);
    result := Summaries(buckets);
  }

  /** The aggregate does not depend on the order of the children. */
  lemma {:induction false} ReorderingChangesNothing(
      series: seq<seq<MetricPoint>>, others: seq<seq<MetricPoint>>, result: seq<AggregatePoint>, other: seq<AggregatePoint>)
    requires multiset(series) == multiset(others)
    requires Aggregates(Flatten(series), result) && Aggregates(Flatten(others), other)
    ensures result == other
  {
    forall step: nat
      ensures multiset(ValuesAt(Flatten(series), step)) == multiset(ValuesAt(Flatten(others), step))
      ensures ValuesAt(Flatten(series), step) == [] <==> ValuesAt(Flatten(others), step) == []
    {
      ValuesOfReordered(series, others, step);
      assert |multiset(ValuesAt(Flatten(series), step))| == |multiset(ValuesAt(Flatten(others), step))|;
    }
    SameSteps(Flatten(series), Flatten(others), result, other);
    forall i | 0 <= i < |result|
      ensures result[i] == other[i]
    {
      SummaryOfMultiset(Bucket(result[i].step, ValuesAt(Flatten(series), result[i].step)),
                        Bucket(other[i].step, ValuesAt(Flatten(others), other[i].step)));
    }
  }

  lemma HasMember(s: seq<nat>)
    ensures s != [] ==> exists x :: x in s
  {
    if s != [] {
      assert s[0] in s;
    }
  }

  /** Strictly ascending lists with the same members are the same list. */
  lemma {:induction false} SameAscending(a: seq<nat>, b: seq<nat>)
    requires forall i, j :: 0 <= i < j < |a| ==> a[i] < a[j]
    requires forall i, j :: 0 <= i < j < |b| ==> b[i] < b[j]
    requires forall x :: x in a <==> x in b
    ensures a == b
  {
    if a == [] {
      HasMember(b);
    } else {
      assert a[0] in b && b[0] in a;
      assert a[0] == b[0];
      forall x
        ensures x in a[1..] <==> x in b[1..]
      {
        assert x in a[1..] <==> x in a && x != a[0];
        assert x in b[1..] <==> x in b && x != b[0];
      }
      SameAscending(a[1..], b[1..]);
    }
  }

  function Steps(result: seq<AggregatePoint>): (steps: seq<nat>)
    ensures |steps| == |result| && forall i :: 0 <= i < |result| ==> steps[i] == result[i].step
  {
    seq(|result|, i requires 0 <= i < |result| => result[i].step)
  }

  lemma {:induction false} SameSteps(points: seq<MetricPoint>, others: seq<MetricPoint>, result: seq<AggregatePoint>, other: seq<AggregatePoint>)
    requires Aggregates(points, result) && Aggregates(others, other)
    requires forall step: nat :: ValuesAt(points, step) == [] <==> ValuesAt(others, step) == []
    ensures |result| == |other| && forall i :: 0 <= i < |result| ==> result[i].step == other[i].step
  {
    forall x: nat
      ensures x in Steps(result) <==> ValuesAt(points, x) != []
      ensures x in Steps(other) <==> ValuesAt(others, x) != []
    {
    }
    SameAscending(Steps(result), Steps(other));
    assert forall i :: 0 <= i < |result| ==> Steps(result)[i] == Steps(other)[i];
  }
}

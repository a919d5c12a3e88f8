/**
 * The consumption chart of app/analytics/page.tsx: the last day's
 * measurements of a keg, grouped by their hour label, each group shown with
 * its rounded mean weight and the mean in litres.
 *
 * The hour label (`toLocaleString` of the timestamp) is the function
 * `hourOf`; weights are `real`. `Math.round(x)` is `floor(x + 1/2)`, which is
 * how JavaScript rounds a half upwards.
 */
module Analytics {

  datatype Measurement = Measurement(weightGrams: real, createdAt: string)

  /** The accumulator entry kept for one hour label. */
  datatype Tally = Tally(sum: real, count: nat)

  /** One row of the chart data. */
  datatype ChartPoint = ChartPoint(time: string, weight: int, liters: real)

  /** `Math.round`. */
  function Round(x: real): (n: int)
    ensures x - 0.5 < n as real <= x + 0.5
  {
    (x + 0.5).Floor
  }

  // ---------------------------------------------------------------------
  // What the grouping computes, stated on the measurements
  // ---------------------------------------------------------------------

  function Labels(ms: seq<Measurement>, hourOf: string -> string): (ls: seq<string>)
    ensures |ls| == |ms|
    ensures forall i :: 0 <= i < |ms| ==> ls[i] == hourOf(ms[i].createdAt)
  {
    if ms == [] then [] else Labels(ms[..|ms| - 1], hourOf) + [hourOf(ms[|ms| - 1].createdAt)]
  }

  /** The labels without repeats, each where it first occurs. */
  function Distinct(ls: seq<string>): seq<string>
  {
    if ls == [] then []
    else
      var d := Distinct(ls[..|ls| - 1]);
      if ls[|ls| - 1] in d then d else d + [ls[|ls| - 1]]
  }

  /** The weights of the measurements labelled `hourLabel`, in input order. */
  function Group(ms: seq<Measurement>, hourOf: string -> string, hourLabel: string): seq<real>
  {
    if ms == [] then []
    else
      var g := Group(ms[..|ms| - 1], hourOf, hourLabel);
      if hourOf(ms[|ms| - 1].createdAt) == hourLabel then g + [ms[|ms| - 1].weightGrams] else g
  }

  function Sum(ws: seq<real>): real
  {
    if ws == [] then 0.0 else Sum(ws[..|ws| - 1]) + ws[|ws| - 1]
  }

  lemma SumAppend(ws: seq<real>, w: real)
    ensures Sum(ws + [w]) == Sum(ws) + w
  {
    assert (ws + [w])[..|ws|] == ws;
  }

  /** The index where `x` first occurs in `ls`. */
  function FirstIndex(ls: seq<string>, x: string): (i: nat)
    requires x in ls
    ensures i < |ls| && ls[i] == x && x !in ls[..i]
  {
    var n := |ls| - 1;
    if x in ls[..n] then
      var i := FirstIndex(ls[..n], x);
      assert ls[..n][..i] == ls[..i];
      i
    else n
  }

  // ---------------------------------------------------------------------
  // The reduce over the measurements
  // ---------------------------------------------------------------------

  /** The sum and count a label's group of weights should have. */
  function TallyOf(ms: seq<Measurement>, hourOf: string -> string, hourLabel: string): Tally {
    var g := Group(ms, hourOf, hourLabel);
    Tally(Sum(g), |g|)
  }

  /** Extending the prefix by one measurement appends it to its label's group alone. */
  lemma PrefixStep(ms: seq<Measurement>, hourOf: string -> string, i: nat)
    requires i < |ms|
    ensures Labels(ms[..i + 1], hourOf) == Labels(ms[..i], hourOf) + [hourOf(ms[i].createdAt)]
    ensures Group(ms[..i + 1], hourOf, hourOf(ms[i].createdAt))
            == Group(ms[..i], hourOf, hourOf(ms[i].createdAt)) + [ms[i].weightGrams]
    ensures forall l :: l != hourOf(ms[i].createdAt) ==> Group(ms[..i + 1], hourOf, l) == Group(ms[..i], hourOf, l)
    ensures var d := Distinct(Labels(ms[..i], hourOf));
            Distinct(Labels(ms[..i + 1], hourOf))
            == if hourOf(ms[i].createdAt) in d then d else d + [hourOf(ms[i].createdAt)]
  {
    assert ms[..i + 1][..i] == ms[..i];
    var ls := Labels(ms[..i + 1], hourOf);
    assert ls[..|ls| - 1] == Labels(ms[..i], hourOf);
  }

  /** One chart row from its label's sum and count: the mean rounded, and in litres to one decimal. */
  function Row(time: string, t: Tally): (p: ChartPoint)
    requires t.count > 0
    ensures p.time == time
    ensures var mean := t.sum / t.count as real;
            mean - 0.5 < p.weight as real <= mean + 0.5
  {
    var mean := t.sum / t.count as real;
    ChartPoint(time, Round(mean), Round(mean / 1000.0 * 10.0) as real / 10.0)
  }

  /**
   * `measurements.reduce(...)`: `keys` is the accumulator's property order
   * (insertion order; hour labels are not integer-like) and `acc` its entries.
   */
  method GroupByHour(ms: seq<Measurement>, hourOf: string -> string) returns (keys: seq<string>, acc: map<string, Tally>)
    ensures keys == Distinct(Labels(ms, hourOf))
    ensures forall l :: l in acc <==> l in keys
    ensures forall l :: l in acc ==> acc[l] == TallyOf(ms, hourOf, l)
  {
    keys, acc := [], map[];
    var i := 0;
    while i < |ms|
      invariant 0 <= i <= |ms|
      invariant keys == Distinct(Labels(ms[..i], hourOf))
      invariant forall l :: l in acc <==> l in keys
      invariant forall l :: l in acc ==> acc[l] == TallyOf(ms[..i], hourOf, l)
    {
      var hour := hourOf(ms[i].createdAt);
      PrefixStep(ms, hourOf, i);
      ghost var before := acc;
      if hour !in acc {
        DistinctMembers(Labels(ms[..i], hourOf));
        GroupEmpty(ms[..i], hourOf, hour);
        acc := acc[hour := Tally(0.0, 0)];
        keys := keys + [hour];
      }
      assert acc[hour] == TallyOf(ms[..i], hourOf, hour);
      acc := acc[hour := Tally(acc[hour].sum + ms[i].weightGrams, acc[hour].count + 1)];
      forall l | l in acc ensures acc[l] == TallyOf(ms[..i + 1], hourOf, l) {
        if l == hour {
          SumAppend(Group(ms[..i], hourOf, hour), ms[i].weightGrams);
        } else {
          assert acc[l] == before[l];
        }
      }
      i := i + 1;
    }
    assert ms[..i] == ms;
  }

  /** `Object.entries(grouped).map(...)`: one point per hour label, in key order. */
  function Points(keys: seq<string>, acc: map<string, Tally>): (points: seq<ChartPoint>)
    requires forall l :: l in keys ==> l in acc && acc[l].count > 0
    ensures |points| == |keys|
    ensures forall i :: 0 <= i < |keys| ==> points[i].time == keys[i]
  {
    seq(|keys|, i requires 0 <= i < |keys| => Row(keys[i], acc[keys[i]]))
  }

  /** `fetchConsumptionData` after the query: group, then build the chart rows. */
  method ConsumptionChart(ms: seq<Measurement>, hourOf: string -> string) returns (chart: seq<ChartPoint>)
    ensures chart == PointOfAll(ms, hourOf)
  {
    var keys, acc := GroupByHour(ms, hourOf);
    forall l | l in keys ensures acc[l].count > 0 {
      DistinctMembers(Labels(ms, hourOf));
      GroupNonEmpty(ms, hourOf, l);
    }
    chart := Points(keys, acc);
    forall i | 0 <= i < |chart| ensures chart[i] == PointOf(ms, hourOf, keys[i]) {
      assert acc[keys[i]] == TallyOf(ms, hourOf, keys[i]);
    }
  }

  /** The chart row of one hour label, stated on its group of weights. */
  function PointOf(ms: seq<Measurement>, hourOf: string -> string, hourLabel: string): (p: ChartPoint)
    ensures p.time == hourLabel
    ensures var g := Group(ms, hourOf, hourLabel);
            g != [] ==> var mean := Sum(g) / |g| as real;
                        mean - 0.5 < p.weight as real <= mean + 0.5
  {
    var g := Group(ms, hourOf, hourLabel);
    if g == [] then ChartPoint(hourLabel, 0, 0.0) else Row(hourLabel, TallyOf(ms, hourOf, hourLabel))
  }

  // ---------------------------------------------------------------------
  // Properties of the grouping
  // ---------------------------------------------------------------------

  /** Exactly the input's labels occur among the distinct labels. */
  lemma {:induction false} DistinctMembers(ls: seq<string>)
    ensures forall x :: x in Distinct(ls) <==> x in ls
  {
    if ls != [] {
      DistinctMembers(ls[..|ls| - 1]);
      assert ls == ls[..|ls| - 1] + [ls[|ls| - 1]];
    }
  }

  /** No hour label occurs twice among the distinct labels. */
  lemma {:induction false} DistinctNoRepeats(ls: seq<string>)
    ensures forall i, j :: 0 <= i < j < |Distinct(ls)| ==> Distinct(ls)[i] != Distinct(ls)[j]
  {
    if ls != [] {
      DistinctNoRepeats(ls[..|ls| - 1]);
    }
  }

  /** The distinct labels come in the order of their first occurrence. */
  lemma {:induction false} DistinctInFirstOccurrenceOrder(ls: seq<string>)
    ensures forall x :: x in Distinct(ls) ==> x in ls
    ensures forall i, j :: 0 <= i < j < |Distinct(ls)| ==>
              FirstIndex(ls, Distinct(ls)[i]) < FirstIndex(ls, Distinct(ls)[j])
  {
    DistinctMembers(ls);
    if ls != [] {
      var init := ls[..|ls| - 1];
      var last := ls[|ls| - 1];
      var d := Distinct(init);
      DistinctInFirstOccurrenceOrder(init);
      DistinctMembers(init);
      forall x | x in init ensures FirstIndex(ls, x) == FirstIndex(init, x) {
        var k := FirstIndex(init, x);
        assert ls[..k] == init[..k];
        FirstIndexUnique(ls, x, k);
      }
      if last !in d {
        FirstIndexUnique(ls, last, |ls| - 1);
        assert ls[..|ls| - 1] == init;
      }
      var dd := Distinct(ls);
      assert dd == if last in d then d else d + [last];
      forall i, j | 0 <= i < j < |dd| ensures FirstIndex(ls, dd[i]) < FirstIndex(ls, dd[j]) {
        assert dd[i] == d[i] && d[i] in init;
        if j < |d| {
          assert dd[j] == d[j] && d[j] in init;
        } else {
          assert dd[j] == last && FirstIndex(ls, last) == |ls| - 1;
        }
      }
    }
  }

  lemma FirstIndexUnique(ls: seq<string>, x: string, k: nat)
    requires k < |ls| && ls[k] == x && x !in ls[..k]
    ensures FirstIndex(ls, x) == k
  {
  }

  /** Every hour label that occurs has a group of at least one measurement. */
  lemma {:induction false} GroupNonEmpty(ms: seq<Measurement>, hourOf: string -> string, hourLabel: string)
    requires hourLabel in Labels(ms, hourOf)
    ensures |Group(ms, hourOf, hourLabel)| >= 1
  {
    var n := |ms| - 1;
    if hourOf(ms[n].createdAt) != hourLabel {
      assert Labels(ms, hourOf) == Labels(ms[..n], hourOf) + [hourOf(ms[n].createdAt)];
      GroupNonEmpty(ms[..n], hourOf, hourLabel);
    }
  }

  /** An hour label that does not occur has an empty group. */
  lemma {:induction false} GroupEmpty(ms: seq<Measurement>, hourOf: string -> string, hourLabel: string)
    requires hourLabel !in Labels(ms, hourOf)
    ensures Group(ms, hourOf, hourLabel) == []
  {
    if ms != [] {
      var n := |ms| - 1;
      assert Labels(ms, hourOf) == Labels(ms[..n], hourOf) + [hourOf(ms[n].createdAt)];
      GroupEmpty(ms[..n], hourOf, hourLabel);
    }
  }

  /** The group sizes of a list of labels, added up. */
  function TotalCount(ms: seq<Measurement>, hourOf: string -> string, labels: seq<string>): nat
  {
    if labels == [] then 0
    else TotalCount(ms, hourOf, labels[..|labels| - 1]) + |Group(ms, hourOf, labels[|labels| - 1])|
  }

  /** One more measurement adds one to the total of any repeat-free list holding its hour label. */
  lemma {:induction false} TotalCountStep(ms: seq<Measurement>, hourOf: string -> string, labels: seq<string>, m: Measurement)
    requires forall i, j :: 0 <= i < j < |labels| ==> labels[i] != labels[j]
    ensures TotalCount(ms + [m], hourOf, labels)
            == TotalCount(ms, hourOf, labels) + (if hourOf(m.createdAt) in labels then 1 else 0)
  {
    if labels != [] {
      var init := labels[..|labels| - 1];
      assert (ms + [m])[..|ms + [m]| - 1] == ms;
      TotalCountStep(ms, hourOf, init, m);
      assert hourOf(m.createdAt) in labels <==> hourOf(m.createdAt) in init || hourOf(m.createdAt) == labels[|labels| - 1];
      if hourOf(m.createdAt) == labels[|labels| - 1] {
        assert hourOf(m.createdAt) !in init;
      }
    }
  }

  /** The group sizes add up to the number of measurements. */
  lemma {:induction false} CountsAddUp(ms: seq<Measurement>, hourOf: string -> string)
    ensures TotalCount(ms, hourOf, Distinct(Labels(ms, hourOf))) == |ms|
  {
    if ms != [] {
      var n := |ms| - 1;
      var init := ms[..n];
      var m := ms[n];
      assert ms == init + [m];
      var hourLabel := hourOf(m.createdAt);
      var d := Distinct(Labels(init, hourOf));
      assert Labels(ms, hourOf)[..n] == Labels(init, hourOf);
      CountsAddUp(init, hourOf);
      DistinctNoRepeats(Labels(init, hourOf));
      DistinctMembers(Labels(init, hourOf));
      TotalCountStep(init, hourOf, d, m);
      if hourLabel !in d {
        GroupEmpty(init, hourOf, hourLabel);
        assert (d + [hourLabel])[..|d|] == d;
      }
    }
  }

  /**
   * The chart has exactly one row per distinct hour label, in first-occurrence
   * order, and every row's group holds at least one measurement.
   */
  lemma ChartRows(ms: seq<Measurement>, hourOf: string -> string)
    ensures var d := Distinct(Labels(ms, hourOf));
            && (forall x :: x in d <==> exists i :: 0 <= i < |ms| && hourOf(ms[i].createdAt) == x)
            && (forall i, j :: 0 <= i < j < |d| ==> d[i] != d[j])
            && (forall x :: x in d ==> |Group(ms, hourOf, x)| >= 1)
            && (forall x :: x in d ==> x in Labels(ms, hourOf))
            && (forall i, j :: 0 <= i < j < |d| ==>
                  FirstIndex(Labels(ms, hourOf), d[i]) < FirstIndex(Labels(ms, hourOf), d[j]))
  {
    var ls := Labels(ms, hourOf);
    DistinctMembers(ls);
    DistinctNoRepeats(ls);
    DistinctInFirstOccurrenceOrder(ls);
    forall x | x in Distinct(ls) ensures |Group(ms, hourOf, x)| >= 1 {
      GroupNonEmpty(ms, hourOf, x);
    }
    forall x ensures x in ls <==> exists i :: 0 <= i < |ms| && hourOf(ms[i].createdAt) == x {
      if x in ls {
        var i :| 0 <= i < |ls| && ls[i] == x;
        assert hourOf(ms[i].createdAt) == x;
      }
    }
  }

  /** No measurements give no chart rows. */
  lemma EmptyChart(hourOf: string -> string)
    ensures PointOfAll([], hourOf) == []
  {
  }

  /** The chart as a function of the measurements. */
  function PointOfAll(ms: seq<Measurement>, hourOf: string -> string): (chart: seq<ChartPoint>)
    ensures |chart| == |Distinct(Labels(ms, hourOf))|
  {
    var d := Distinct(Labels(ms, hourOf));
    seq(|d|, i requires 0 <= i < |d| => PointOf(ms, hourOf, d[i]))
  }

  // ---------------------------------------------------------------------
  // Properties of one row
  // ---------------------------------------------------------------------

  predicate Whole(x: real) {
    x == x.Floor as real
  }

  predicate AtLeast(ws: seq<real>, lo: real) {
    forall i :: 0 <= i < |ws| ==> lo <= ws[i]
  }

  predicate AtMost(ws: seq<real>, hi: real) {
    forall i :: 0 <= i < |ws| ==> ws[i] <= hi
  }

  lemma {:induction false} SumBounds(ws: seq<real>, lo: real, hi: real)
    requires AtLeast(ws, lo) && AtMost(ws, hi)
    ensures |ws| as real * lo <= Sum(ws) <= |ws| as real * hi
  {
    if ws != [] {
      var init, last := ws[..|ws| - 1], ws[|ws| - 1];
      assert AtLeast(init, lo) && AtMost(init, hi);
      SumBounds(init, lo, hi);
      assert Sum(ws) == Sum(init) + last;
      assert |ws| as real * lo == |init| as real * lo + lo;
      assert |ws| as real * hi == |init| as real * hi + hi;
    }
  }

  lemma FloorMonotone(x: real, y: real)
    requires x <= y
    ensures x.Floor <= y.Floor
  {
  }

  lemma FloorIs(x: real, k: int)
    requires k as real <= x < k as real + 1.0
    ensures x.Floor == k
  {
  }

  /** A mean of numbers within bounds lies within the same bounds. */
  lemma MeanBounds(sum: real, n: real, lo: real, hi: real)
    requires n >= 1.0 && n * lo <= sum <= n * hi
    ensures lo <= sum / n <= hi
  {
    assert (sum / n) * n == sum;
  }

  /** Rounding keeps a value between whole bounds. */
  lemma RoundBetweenWhole(x: real, lo: real, hi: real)
    requires lo <= x <= hi && Whole(lo) && Whole(hi)
    ensures lo <= Round(x) as real <= hi
  {
    FloorIs(lo + 0.5, lo.Floor);
    FloorIs(hi + 0.5, hi.Floor);
    FloorMonotone(lo + 0.5, x + 0.5);
    FloorMonotone(x + 0.5, hi + 0.5);
  }

  /**
   * A row's weight is its group's mean, rounded: within half a gram of the
   * mean, and so between any lower and upper bound of the weights when those
   * bounds are whole grams.
   */
  lemma PointWeightBounds(ms: seq<Measurement>, hourOf: string -> string, hourLabel: string, lo: real, hi: real)
    requires hourLabel in Labels(ms, hourOf)
    requires AtLeast(Group(ms, hourOf, hourLabel), lo) && AtMost(Group(ms, hourOf, hourLabel), hi)
    ensures |Group(ms, hourOf, hourLabel)| >= 1
    ensures var g := Group(ms, hourOf, hourLabel);
            var mean := Sum(g) / |g| as real;
            var w := PointOf(ms, hourOf, hourLabel).weight as real;
            && lo <= mean <= hi
            && mean - 0.5 < w <= mean + 0.5
            && (Whole(lo) && Whole(hi) ==> lo <= w <= hi)
  {
    var g := Group(ms, hourOf, hourLabel);
    GroupNonEmpty(ms, hourOf, hourLabel);
    assert PointOf(ms, hourOf, hourLabel).weight == Round(Sum(g) / |g| as real);
    RoundedMeanBounds(g, lo, hi);
  }

  lemma RoundedMeanBounds(g: seq<real>, lo: real, hi: real)
    requires |g| >= 1 && AtLeast(g, lo) && AtMost(g, hi)
    ensures var mean := Sum(g) / |g| as real;
            && lo <= mean <= hi
            && mean - 0.5 < Round(mean) as real <= mean + 0.5
            && (Whole(lo) && Whole(hi) ==> lo <= Round(mean) as real <= hi)
  {
    SumBounds(g, lo, hi);
    RoundedMeanOf(Sum(g), |g| as real, lo, hi);
  }

  lemma RoundedMeanOf(sum: real, n: real, lo: real, hi: real)
    requires n >= 1.0 && n * lo <= sum <= n * hi
    ensures var mean := sum / n;
            && lo <= mean <= hi
            && mean - 0.5 < Round(mean) as real <= mean + 0.5
            && (Whole(lo) && Whole(hi) ==> lo <= Round(mean) as real <= hi)
  {
    MeanBounds(sum, n, lo, hi);
    if Whole(lo) && Whole(hi) {
      RoundBetweenWhole(sum / n, lo, hi);
    }
  }

  /** A row's litres are the mean weight in kilograms (litres of water) to one decimal. */
  lemma PointLiters(ms: seq<Measurement>, hourOf: string -> string, hourLabel: string)
    requires hourLabel in Labels(ms, hourOf)
    ensures |Group(ms, hourOf, hourLabel)| >= 1
    ensures var g := Group(ms, hourOf, hourLabel);
            var mean := Sum(g) / |g| as real;
            var liters := PointOf(ms, hourOf, hourLabel).liters;
            && mean / 1000.0 - 0.05 < liters <= mean / 1000.0 + 0.05
            && Whole(liters * 10.0)
  {
    var g := Group(ms, hourOf, hourLabel);
    GroupNonEmpty(ms, hourOf, hourLabel);
    RowLiters(hourLabel, Tally(Sum(g), |g|));
  }

  lemma RowLiters(time: string, t: Tally)
    requires t.count > 0
    ensures var mean := t.sum / t.count as real;
            var liters := Row(time, t).liters;
            && mean / 1000.0 - 0.05 < liters <= mean / 1000.0 + 0.05
            && Whole(liters * 10.0)
  {
    var mean := t.sum / t.count as real;
    var r := Round(mean / 1000.0 * 10.0);
    assert Row(time, t).liters == r as real / 10.0;
    assert mean / 1000.0 * 10.0 - 0.5 < r as real <= mean / 1000.0 * 10.0 + 0.5;
    assert (r as real / 10.0) * 10.0 == r as real;
  }
}

/** Medians and bootstrap intervals, over exact rationals. */
module Statistics {
  import opened Options

  // ----- Sorting -------------------------------------------------------------------

  ghost predicate Ascending(s: seq<real>) {
    forall i, j :: 0 <= i < j < |s| ==> s[i] <= s[j]
  }

  function Insert(x: real, s: seq<real>): (r: seq<real>)
    ensures |r| == |s| + 1
  {
    if s == [] || x <= s[0] then [x] + s else [s[0]] + Insert(x, s[1..])
  }

  function Sort(s: seq<real>): (r: seq<real>)
    ensures |r| == |s|
  {
    if s == [] then [] else Insert(s[0], Sort(s[1..]))
  }

  lemma {:induction false} InsertKeeps(x: real, s: seq<real>)
    ensures multiset(Insert(x, s)) == multiset(s) + multiset{x}
  {
    if s != [] && s[0] < x {
      InsertKeeps(x, s[1..]);
      assert s == [s[0]] + s[1..];
    }
  }

  lemma {:induction false} InsertStaysAbove(low: real, x: real, s: seq<real>)
    requires low <= x && forall i :: 0 <= i < |s| ==> low <= s[i]
    ensures forall i :: 0 <= i < |Insert(x, s)| ==> low <= Insert(x, s)[i]
  {
    if s != [] && s[0] < x {
      InsertStaysAbove(low, x, s[1..]);
    }
  }

  lemma {:induction false} InsertSorts(x: real, s: seq<real>)
    requires Ascending(s)
    ensures Ascending(Insert(x, s))
  {
    if s != [] && s[0] < x {
      InsertSorts(x, s[1..]);
      InsertStaysAbove(s[0], x, s[1..]);
    }
  }

  lemma {:induction false} SortSorts(s: seq<real>)
    ensures Ascending(Sort(s)) && multiset(Sort(s)) == multiset(s)
  {
    if s != [] {
      SortSorts(s[1..]);
      InsertSorts(s[0], Sort(s[1..]));
      InsertKeeps(s[0], Sort(s[1..]));
      assert s == [s[0]] + s[1..];
    }
  }

  lemma TailMultiset(s: seq<real>)
    requires s != []
    ensures multiset(s[1..]) == multiset(s) - multiset{s[0]} && s[0] in multiset(s)
  {
    assert s == [s[0]] + s[1..];
  }

  lemma SameFirst(a: seq<real>, b: seq<real>)
    requires Ascending(a) && Ascending(b) && multiset(a) == multiset(b) && a != [] && b != []
    ensures a[0] == b[0] && multiset(a[1..]) == multiset(b[1..])
  {
    TailMultiset(a);
    TailMultiset(b);
    FirstIsLeast(a, b[0]);
    FirstIsLeast(b, a[0]);
  }

  lemma Reassemble(a: seq<real>, b: seq<real>)
    requires a != [] && b != [] && a[0] == b[0] && a[1..] == b[1..]
    ensures a == b
  {
    assert a == [a[0]] + a[1..] && b == [b[0]] + b[1..];
  }

  /** There is only one way to put the same values in order. */
  lemma {:induction false} AscendingIsUnique(a: seq<real>, b: seq<real>)
    requires Ascending(a) && Ascending(b) && multiset(a) == multiset(b)
    ensures a == b
  {
    assert |multiset(a)| == |a| && |multiset(b)| == |b|;
    if a != [] {
      SameFirst(a, b);
      AscendingIsUnique(a[1..], b[1..]);
      Reassemble(a, b);
    }
  }

  lemma FirstIsLeast(s: seq<real>, x: real)
    requires Ascending(s) && x in multiset(s)
    ensures s != [] && s[0] <= x
  {
    var i :| 0 <= i < |s| && s[i] == x;
  }

  // ----- The median ----------------------------------------------------------------

  /** Of an even number of values, the mean of the middle two. */
  function Middle(s: seq<real>): real
    requires s != []
  {
    if |s| % 2 == 1 then s[|s| / 2] else (s[|s| / 2 - 1] + s[|s| / 2]) / 2.0
  }

  function Median(values: seq<real>): real
    requires values != []
  {
    Middle(Sort(values))
  }

  /** Only which values there are matters, not their order. */
  lemma MedianOfPermutation(a: seq<real>, b: seq<real>)
    requires a != [] && multiset(a) == multiset(b)
    ensures b != [] && Median(a) == Median(b)
  {
    assert |multiset(a)| == |a| && |multiset(b)| == |b|;
    SortSorts(a);
    SortSorts(b);
    AscendingIsUnique(Sort(a), Sort(b));
  }

  /** Put the values in order in any way: the median is the middle one, or, of an even number,
      lies halfway between the middle two. */
  lemma MedianOfSorted(values: seq<real>, s: seq<real>)
    requires values != [] && Ascending(s) && multiset(s) == multiset(values)
    ensures |s| == |values|
    ensures |s| % 2 == 1 ==> Median(values) == s[|s| / 2]
    ensures |s| % 2 == 0 ==> 2.0 * Median(values) == s[|s| / 2 - 1] + s[|s| / 2]
  {
    assert |multiset(s)| == |s| && |multiset(values)| == |values|;
    SortSorts(values);
    AscendingIsUnique(Sort(values), s);
  }

  ghost predicate Between(low: real, high: real, values: seq<real>) {
    forall i :: 0 <= i < |values| ==> low <= values[i] <= high
  }

  lemma SortStaysBetween(low: real, high: real, values: seq<real>)
    requires Between(low, high, values)
    ensures Between(low, high, Sort(values))
  {
    SortSorts(values);
    var s := Sort(values);
    forall i | 0 <= i < |s| ensures low <= s[i] <= high {
      assert s[i] in multiset(values);
      var j :| 0 <= j < |values| && values[j] == s[i];
    }
  }

  lemma MedianIsBetween(low: real, high: real, values: seq<real>)
    requires values != [] && Between(low, high, values)
    ensures low <= Median(values) <= high
  {
    SortStaysBetween(low, high, values);
  }

  function Negated(values: seq<real>): seq<real> {
    seq(|values|, i requires 0 <= i < |values| => -values[i])
  }

  function Backwards(values: seq<real>): seq<real> {
    seq(|values|, i requires 0 <= i < |values| => values[|values| - 1 - i])
  }

  lemma {:induction false} NegatedMultiset(a: seq<real>, b: seq<real>)
    requires multiset(a) == multiset(b)
    ensures multiset(Negated(a)) == multiset(Negated(b))
  {
    forall x ensures multiset(Negated(a))[x] == multiset(Negated(b))[x] {
      NegatedCount(a, x);
      NegatedCount(b, x);
    }
  }

  lemma {:induction false} NegatedCount(a: seq<real>, x: real)
    ensures multiset(Negated(a))[x] == multiset(a)[-x]
  {
    if a != [] {
      var n := |a| - 1;
      NegatedCount(a[..n], x);
      assert a == a[..n] + [a[n]] && Negated(a) == Negated(a[..n]) + [-a[n]];
    }
  }

  lemma {:induction false} BackwardsMultiset(a: seq<real>)
    ensures multiset(Backwards(a)) == multiset(a)
  {
    if a != [] {
      var n := |a| - 1;
      BackwardsMultiset(a[..n]);
      assert a == a[..n] + [a[n]] && Backwards(a) == [a[n]] + Backwards(a[..n]);
    }
  }

  lemma MirrorOfSorted(s: seq<real>)
    requires s != [] && Ascending(s)
    ensures Ascending(Backwards(Negated(s)))
    ensures Middle(Backwards(Negated(s))) == -Middle(s)
  {
  }

  /** The median of the gains is the median of the slowdowns, negated. */
  lemma MedianOfNegated(values: seq<real>)
    requires values != []
    ensures Negated(values) != [] && Median(Negated(values)) == -Median(values)
  {
    var s := Sort(values);
    var mirrored := Backwards(Negated(s));
    SortSorts(values);
    SortSorts(Negated(values));
    BackwardsMultiset(Negated(s));
    NegatedMultiset(s, values);
    MirrorOfSorted(s);
    AscendingIsUnique(Sort(Negated(values)), mirrored);
  }

  // ----- Directional support --------------------------------------------------------

  function Positives(values: seq<real>): nat {
    if values == [] then 0
    else Positives(values[..|values| - 1]) + if values[|values| - 1] > 0.0 then 1 else 0
  }

  lemma {:induction false} PositivesIsCount(values: seq<real>)
    ensures Positives(values) == |set i: nat | i < |values| && values[i] > 0.0|
  {
    var all := set i: nat | i < |values| && values[i] > 0.0;
    if values == [] {
      assert all == {};
    } else {
      var n := |values| - 1;
      PositivesIsCount(values[..n]);
      var before := set i: nat | i < |values[..n]| && values[..n][i] > 0.0;
      assert all == before + if values[n] > 0.0 then {n} else {};
    }
  }

  lemma {:induction false} PositivesOfSum(a: seq<real>, b: seq<real>)
    ensures Positives(a + b) == Positives(a) + Positives(b)
  {
    if b == [] {
      assert a + b == a;
    } else {
      assert (a + b)[..|a + b| - 1] == a + b[..|b| - 1];
      PositivesOfSum(a, b[..|b| - 1]);
    }
  }

  lemma {:induction false} PositivesOfInsert(x: real, s: seq<real>)
    ensures Positives(Insert(x, s)) == Positives(s) + if x > 0.0 then 1 else 0
  {
    OnePositive(x);
    if s == [] || x <= s[0] {
      PositivesOfSum([x], s);
    } else {
      PositivesOfInsert(x, s[1..]);
      PositivesOfSum([s[0]], Insert(x, s[1..]));
      PositivesOfSum([s[0]], s[1..]);
      assert s == [s[0]] + s[1..];
    }
  }

  lemma OnePositive(x: real)
    ensures Positives([x]) == if x > 0.0 then 1 else 0
  {
    assert [x][..0] == [];
  }

  lemma {:induction false} PositivesOfSort(s: seq<real>)
    ensures Positives(Sort(s)) == Positives(s)
  {
    if s != [] {
      PositivesOfSort(s[1..]);
      PositivesOfInsert(s[0], Sort(s[1..]));
      OnePositive(s[0]);
      PositivesOfSum([s[0]], s[1..]);
      assert s == [s[0]] + s[1..];
    }
  }

  lemma {:induction false} AllPositive(s: seq<real>)
    requires forall i :: 0 <= i < |s| ==> s[i] > 0.0
    ensures Positives(s) == |s|
  {
    if s != [] {
      AllPositive(s[..|s| - 1]);
    }
  }

  lemma MiddleIsPositive(s: seq<real>)
    requires s != [] && Ascending(s) && Middle(s) > 0.0
    ensures s[|s| / 2] > 0.0
  {
  }

  lemma UpperHalf(s: seq<real>, half: nat)
    requires half < |s| && Ascending(s) && s[half] > 0.0
    ensures Positives(s) >= |s| - half
  {
    assert s == s[..half] + s[half..];
    PositivesOfSum(s[..half], s[half..]);
    AllPositive(s[half..]);
  }

  /** A positive median means at least half of the values are positive. */
  lemma PositiveMedianIsHalfPositive(values: seq<real>)
    requires values != [] && Median(values) > 0.0
    ensures 2 * Positives(values) >= |values|
  {
    var s := Sort(values);
    SortSorts(values);
    PositivesOfSort(values);
    MiddleIsPositive(s);
    UpperHalf(s, |s| / 2);
  }

  // ----- The bootstrap --------------------------------------------------------------

  /** k values drawn with replacement, in any way at all. */
  method Choices(values: seq<real>, k: nat) returns (sample: seq<real>)
    requires values != []
    ensures |sample| == k && forall i :: 0 <= i < k ==> sample[i] in values
  {
    sample := [];
    for i := 0 to k
      invariant |sample| == i && forall j :: 0 <= j < i ==> sample[j] in values
    {
      var at: int := *;
      sample := sample + [if 0 <= at < |values| then values[at] else values[0]];
    }
  }

  /** i is the place of the quantile permille/1000 among n sorted values. */
  predicate IsQuantile(i: nat, permille: nat, n: nat) {
    i < n && 1000 * i <= permille * (n - 1) < 1000 * (i + 1)
  }

  lemma FloorIs(product: nat, i: nat)
    ensures 1000 * i <= product < 1000 * (i + 1) <==> i == product / 1000
  {
  }

  lemma PartIsLess(permille: nat, m: nat)
    requires permille < 1000
    ensures permille * m <= 1000 * m
  {
    assert 1000 * m - permille * m == (1000 - permille) * m;
  }

  /** There is exactly one such place: the product rounded down. */
  lemma QuantilePlace(permille: nat, n: nat)
    requires n > 0 && permille < 1000
    ensures forall i: nat :: IsQuantile(i, permille, n) <==> i == permille * (n - 1) / 1000
  {
    PartIsLess(permille, n - 1);
    var product := permille * (n - 1);
    forall i: nat ensures IsQuantile(i, permille, n) <==> i == product / 1000 {
      FloorIs(product, i);
      assert product / 1000 < n;
    }
  }

  /** Each resample has as many values as there are, each one of them. */
  ghost predicate AreResamples(samples: seq<seq<real>>, values: seq<real>) {
    forall i :: 0 <= i < |samples| ==>
      samples[i] != [] && |samples[i]| == |values| && forall j :: 0 <= j < |samples[i]| ==> samples[i][j] in values
  }

  ghost function Medians(samples: seq<seq<real>>, values: seq<real>): seq<real>
    requires AreResamples(samples, values)
  {
    seq(|samples|, i requires 0 <= i < |samples| => Median(samples[i]))
  }

  lemma MediansAreBetween(low: real, high: real, values: seq<real>, samples: seq<seq<real>>)
    requires Between(low, high, values) && AreResamples(samples, values)
    ensures Between(low, high, Sort(Medians(samples, values)))
  {
    var medians := Medians(samples, values);
    forall i | 0 <= i < |medians| ensures low <= medians[i] <= high {
      MedianIsBetween(low, high, samples[i]);
    }
    SortStaysBetween(low, high, medians);
  }

  /** The medians of any resamples. */
  method DrawMedians(values: seq<real>, draws: nat) returns (medians: seq<real>, ghost samples: seq<seq<real>>)
    requires values != []
    ensures |samples| == draws && AreResamples(samples, values) && medians == Medians(samples, values)
  {
    medians, samples := [], [];
    for i := 0 to draws
      invariant |samples| == i && AreResamples(samples, values) && medians == Medians(samples, values)
    {
      var sample := Choices(values, |values|);
      medians := medians + [Median(sample)];
      samples := samples + [sample];
    }
  }

  /** The 2.5% and 97.5% quantiles of the medians of the resamples, whatever was drawn. */
  method BootstrapMedianCi(values: seq<real>, draws: nat)
    returns (ci: Option<(real, real)>, ghost samples: seq<seq<real>>)
    requires draws > 0
    ensures ci.None? <==> |values| < 2
    ensures ci.Some? ==> |samples| == draws && AreResamples(samples, values)
    ensures ci.Some? ==>
              forall i: nat :: IsQuantile(i, 25, draws) ==> ci.value.0 == Sort(Medians(samples, values))[i]
    ensures ci.Some? ==>
              forall i: nat :: IsQuantile(i, 975, draws) ==> ci.value.1 == Sort(Medians(samples, values))[i]
    ensures ci.Some? ==> ci.value.0 <= ci.value.1
    ensures ci.Some? ==> forall low, high :: Between(low, high, values) ==> low <= ci.value.0 && ci.value.1 <= high
  {
    samples := [];
    if |values| < 2 {
      return None, [];
    }
    var medians;
    medians, samples := DrawMedians(values, draws);
    forall low, high | Between(low, high, values) ensures Between(low, high, Sort(medians)) {
      MediansAreBetween(low, high, values, samples);
    }
    SortSorts(medians);
    var inOrder := Sort(medians);
    var lower, upper := 25 * (draws - 1) / 1000, 975 * (draws - 1) / 1000;
    return Some((inOrder[lower], inOrder[upper])), samples;
  }

  lemma ZeroFactor(x: real, y: real)
    requires x * y == 0.0 && y != 0.0
    ensures x == 0.0
  {
  }

  /** A gain is how much faster the candidate is, relative to the baseline. */
  lemma GainIsRelative(baseline: real, candidate: real)
    requires baseline != 0.0
    ensures -((baseline - candidate) / baseline) == candidate / baseline - 1.0
  {
    var slowdown, ratio := (baseline - candidate) / baseline, candidate / baseline;
    assert slowdown * baseline == baseline - candidate && ratio * baseline == candidate;
    ZeroFactor(slowdown + ratio - 1.0, baseline);
  }
}

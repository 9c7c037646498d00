/** Comparing fixed policies: the Gate 1 verdict and the gains of a purgeable candidate. */
module Gate {
  import opened Options
  import opened Schema
  import opened Runner
  import opened Admission
  import opened Pairing
  import opened Statistics

  /** One line of the summary: the medians of one arm. */
  datatype Row = Row(
    armName: string,
    cacheMib: int,
    pressureMib: int,
    decodeTps: Option<real>,
    expertHitRate: Option<real>,
    minFreePercent: Option<real>,
    peakCompressorGrowth: Option<real>,
    compressorDelta: Option<real>,
    peakSwapGrowth: Option<real>,
    swapDelta: Option<real>,
    peakPressureScore: Option<real>,
    nativePressureScore: Option<real>)

  datatype Thresholds = Thresholds(gap: real, minimumRepetitions: int, minimumDirectionalSupport: int)

  datatype Comparison = Comparison(
    small: Row,
    large: Row,
    throughputGap: real,
    hitRateImprovement: real,
    pressureEvidence: bool,
    pairedGaps: seq<real>,
    directionalSupport: nat,
    repetitionEvidence: bool,
    passed: bool)

  datatype Verdict = Verdict(
    passed: bool,
    comparisons: seq<Comparison>,
    candidates: seq<Comparison>,
    bestTradeoff: Option<Comparison>)

  // ----- One pair of rows -----------------------------------------------------------

  function OrZero(value: Option<real>): real {
    if value.Some? then value.value else 0.0
  }

  function OrElse(value: Option<real>, fallback: Option<real>): real {
    if value.Some? then value.value else OrZero(fallback)
  }

  function PressureEvidence(small: Row, large: Row): bool {
    var compressorGrowth := OrElse(large.peakCompressorGrowth, large.compressorDelta)
                              - OrElse(small.peakCompressorGrowth, small.compressorDelta);
    var swapGrowth := OrElse(large.peakSwapGrowth, large.swapDelta)
                        - OrElse(small.peakSwapGrowth, small.swapDelta);
    || OrZero(small.minFreePercent) - OrZero(large.minFreePercent) >= 2.0
    || compressorGrowth >= 268435456.0
    || swapGrowth > 0.0
    || OrZero(large.peakPressureScore) - OrZero(small.peakPressureScore) > 0.0
    || OrZero(large.nativePressureScore) - OrZero(small.nativePressureScore) > 0.0
  }

  function PairedGaps(records: Option<seq<RunRecord>>, small: Row, large: Row): seq<real> {
    if records.None? then []
    else Gaps(Throughputs(records.value, small.armName), Throughputs(records.value, large.armName))
  }

  predicate Comparable(small: Row, large: Row) {
    && small.decodeTps.Some? && large.decodeTps.Some? && small.expertHitRate.Some? && large.expertHitRate.Some?
    && small.decodeTps.value != 0.0
  }

  function Compare(small: Row, large: Row, records: Option<seq<RunRecord>>, t: Thresholds): Comparison
    requires Comparable(small, large)
  {
    var throughputGap := Gap(small.decodeTps.value, large.decodeTps.value);
    var hitImprovement := large.expertHitRate.value - small.expertHitRate.value;
    var pressure := PressureEvidence(small, large);
    var gaps := PairedGaps(records, small, large);
    var support := Positives(gaps);
    var repeated := || records.None?
                    || (&& |gaps| >= t.minimumRepetitions && support >= t.minimumDirectionalSupport
                        && gaps != [] && Median(gaps) >= t.gap);
    Comparison(small, large, throughputGap, hitImprovement, pressure, gaps, support, repeated,
               throughputGap >= t.gap && hitImprovement > 0.0 && pressure && repeated)
  }

  ghost function Known(peak: Option<real>, delta: Option<real>): real {
    match peak
    case Some(v) => v
    case None => match delta { case Some(d) => d case None => 0.0 }
  }

  /** With the larger cache, one of the five readings is worse by the amount that counts; a
      reading that is missing falls back on the difference over the run, and then on zero. */
  ghost predicate WorseMemory(small: Row, large: Row) {
    || Known(small.minFreePercent, None) >= Known(large.minFreePercent, None) + 2.0
    || Known(large.peakCompressorGrowth, large.compressorDelta)
         >= Known(small.peakCompressorGrowth, small.compressorDelta) + 256.0 * 1024.0 * 1024.0
    || Known(large.peakSwapGrowth, large.swapDelta) > Known(small.peakSwapGrowth, small.swapDelta)
    || Known(large.peakPressureScore, None) > Known(small.peakPressureScore, None)
    || Known(large.nativePressureScore, None) > Known(small.nativePressureScore, None)
  }

  /** Runs that were not recorded need not repeat; recorded ones must, often enough, in the same
      direction often enough, and by enough in the median. */
  ghost predicate Repeats(records: Option<seq<RunRecord>>, gaps: seq<real>, t: Thresholds) {
    records.Some? ==>
      && |gaps| >= t.minimumRepetitions && gaps != [] && Median(gaps) >= t.gap
      && |set i: nat | i < |gaps| && gaps[i] > 0.0| >= t.minimumDirectionalSupport
  }

  /** Everything a comparison says, in terms of the two rows and the paired gaps. */
  lemma CompareMeans(small: Row, large: Row, records: Option<seq<RunRecord>>, t: Thresholds)
    requires Comparable(small, large)
    ensures
      var c := Compare(small, large, records, t);
      var gaps := if records.None? then []
                  else Gaps(Throughputs(records.value, small.armName), Throughputs(records.value, large.armName));
      && c.small == small && c.large == large && c.pairedGaps == gaps
      && c.throughputGap * small.decodeTps.value == small.decodeTps.value - large.decodeTps.value
      && c.hitRateImprovement == large.expertHitRate.value - small.expertHitRate.value
      && c.directionalSupport == |set i: nat | i < |gaps| && gaps[i] > 0.0|
      && (c.pressureEvidence <==> WorseMemory(small, large))
      && (c.repetitionEvidence <==> Repeats(records, gaps, t))
      && (c.passed <==>
            && (small.decodeTps.value - large.decodeTps.value) / small.decodeTps.value >= t.gap
            && large.expertHitRate.value > small.expertHitRate.value
            && WorseMemory(small, large) && Repeats(records, gaps, t))
  {
    PositivesIsCount(PairedGaps(records, small, large));
  }

  /** A comparison that passes on repeated runs has at least half of its gaps positive. */
  lemma PassedIsHalfPositive(small: Row, large: Row, records: Option<seq<RunRecord>>, t: Thresholds)
    requires Comparable(small, large) && records.Some? && t.gap > 0.0
    ensures
      var c := Compare(small, large, records, t);
      c.passed ==> c.pairedGaps != [] && 2 * c.directionalSupport >= |c.pairedGaps|
  {
    var c := Compare(small, large, records, t);
    if c.passed {
      PositiveMedianIsHalfPositive(c.pairedGaps);
    }
  }

  lemma ScaledUp(x: real, y: real, scale: real)
    requires x <= y && scale >= 0.0
    ensures x * scale <= y * scale
  {
  }

  lemma SlowerByThreshold(small: real, large: real, threshold: real)
    requires small > 0.0 && Gap(small, large) >= threshold
    ensures large <= (1.0 - threshold) * small
  {
    assert Gap(small, large) * small == small - large;
    ScaledUp(threshold, Gap(small, large), small);
  }

  /** What a candidate is: the larger cache hits more often and is slower by at least the
      threshold, while some memory reading got worse. */
  lemma CandidateMeans(small: Row, large: Row, records: Option<seq<RunRecord>>, t: Thresholds)
    requires Comparable(small, large) && small.decodeTps.value > 0.0
    requires Compare(small, large, records, t).passed
    ensures large.expertHitRate.value > small.expertHitRate.value
    ensures large.decodeTps.value <= (1.0 - t.gap) * small.decodeTps.value
    ensures
      || OrZero(large.minFreePercent) <= OrZero(small.minFreePercent) - 2.0
      || OrElse(large.peakCompressorGrowth, large.compressorDelta)
           >= OrElse(small.peakCompressorGrowth, small.compressorDelta) + 268435456.0
      || OrElse(large.peakSwapGrowth, large.swapDelta) > OrElse(small.peakSwapGrowth, small.swapDelta)
      || OrZero(large.peakPressureScore) > OrZero(small.peakPressureScore)
      || OrZero(large.nativePressureScore) > OrZero(small.nativePressureScore)
  {
    SlowerByThreshold(small.decodeTps.value, large.decodeTps.value, t.gap);
  }

  ghost predicate Stricter(s: Thresholds, t: Thresholds) {
    && s.gap >= t.gap
    && s.minimumRepetitions >= t.minimumRepetitions
    && s.minimumDirectionalSupport >= t.minimumDirectionalSupport
  }

  // ----- All pairs at one pressure ---------------------------------------------------

  function AgainstRest(small: Row, rest: seq<Row>, records: Option<seq<RunRecord>>, t: Thresholds): seq<Comparison> {
    if rest == [] then []
    else
      (if Comparable(small, rest[0]) then [Compare(small, rest[0], records, t)] else [])
        + AgainstRest(small, rest[1..], records, t)
  }

  function AllPairs(rows: seq<Row>, records: Option<seq<RunRecord>>, t: Thresholds): seq<Comparison> {
    if rows == [] then []
    else AgainstRest(rows[0], rows[1..], records, t) + AllPairs(rows[1..], records, t)
  }

  /** Inserts after every row with no larger a cache, so that sorting is stable. */
  function InsertRow(row: Row, rows: seq<Row>): seq<Row> {
    if rows == [] || rows[|rows| - 1].cacheMib <= row.cacheMib then rows + [row]
    else InsertRow(row, rows[..|rows| - 1]) + [rows[|rows| - 1]]
  }

  function ByCache(rows: seq<Row>): seq<Row> {
    if rows == [] then [] else InsertRow(rows[|rows| - 1], ByCache(rows[..|rows| - 1]))
  }

  function AtPressure(summary: seq<Row>, pressure: int): seq<Row> {
    if summary == [] then []
    else
      var row := summary[|summary| - 1];
      AtPressure(summary[..|summary| - 1], pressure) + if row.pressureMib == pressure then [row] else []
  }

  /** The pressures in order of first appearance. */
  function Pressures(summary: seq<Row>): seq<int> {
    if summary == [] then []
    else
      var rest, p := Pressures(summary[..|summary| - 1]), summary[|summary| - 1].pressureMib;
      if p in rest then rest else rest + [p]
  }

  function Comparisons(
    pressures: seq<int>, summary: seq<Row>, records: Option<seq<RunRecord>>, t: Thresholds): seq<Comparison>
  {
    if pressures == [] then []
    else
      var n := |pressures| - 1;
      Comparisons(pressures[..n], summary, records, t)
        + ComparisonsAt(pressures[n], summary, records, t)
  }

  // ----- The verdict ----------------------------------------------------------------

  lemma RestStep(small: Row, rows: seq<Row>, j: nat, records: Option<seq<RunRecord>>, t: Thresholds)
    requires j < |rows|
    ensures AgainstRest(small, rows[j..], records, t)
         == (if Comparable(small, rows[j]) then [Compare(small, rows[j], records, t)] else [])
              + AgainstRest(small, rows[j + 1..], records, t)
  {
    assert rows[j..][0] == rows[j] && rows[j..][1..] == rows[j + 1..];
  }

  lemma RestGrows(
    done: seq<Comparison>, rows: seq<Row>, i: nat, j: nat, records: Option<seq<RunRecord>>, t: Thresholds)
    requires i < j < |rows|
    ensures
      var rest := AgainstRest(rows[i], rows[j + 1..], records, t);
      done + AgainstRest(rows[i], rows[j..], records, t) ==
        if Comparable(rows[i], rows[j]) then done + [Compare(rows[i], rows[j], records, t)] + rest else done + rest
  {
    RestStep(rows[i], rows, j, records, t);
    if Comparable(rows[i], rows[j]) {
      Regroup(done, [Compare(rows[i], rows[j], records, t)], AgainstRest(rows[i], rows[j + 1..], records, t));
    }
  }

  lemma Regroup(a: seq<Comparison>, b: seq<Comparison>, c: seq<Comparison>)
    ensures a + (b + c) == a + b + c
  {
  }

  method CompareWithRest(rows: seq<Row>, i: nat, records: Option<seq<RunRecord>>, t: Thresholds)
    returns (comparisons: seq<Comparison>)
    requires i < |rows|
    ensures comparisons == AgainstRest(rows[i], rows[i + 1..], records, t)
  {
    comparisons := [];
    for j := i + 1 to |rows|
      invariant comparisons + AgainstRest(rows[i], rows[j..], records, t)
             == AgainstRest(rows[i], rows[i + 1..], records, t)
    {
      RestGrows(comparisons, rows, i, j, records, t);
      if Comparable(rows[i], rows[j]) {
        comparisons := comparisons + [Compare(rows[i], rows[j], records, t)];
      }
    }
    RestEnds(comparisons, rows, i, records, t);
  }

  lemma RestEnds(done: seq<Comparison>, rows: seq<Row>, i: nat, records: Option<seq<RunRecord>>, t: Thresholds)
    requires i < |rows|
    ensures done + AgainstRest(rows[i], rows[|rows|..], records, t) == done
  {
    assert rows[|rows|..] == [];
  }

  lemma PairsStep(rows: seq<Row>, i: nat, records: Option<seq<RunRecord>>, t: Thresholds)
    requires i < |rows|
    ensures AllPairs(rows[i..], records, t)
         == AgainstRest(rows[i], rows[i + 1..], records, t) + AllPairs(rows[i + 1..], records, t)
  {
    assert rows[i..][0] == rows[i] && rows[i..][1..] == rows[i + 1..];
  }

  /** Each row against every later one. */
  method CompareRows(rows: seq<Row>, records: Option<seq<RunRecord>>, t: Thresholds)
    returns (comparisons: seq<Comparison>)
    ensures comparisons == AllPairs(rows, records, t)
  {
    comparisons := [];
    for i := 0 to |rows|
      invariant comparisons + AllPairs(rows[i..], records, t) == AllPairs(rows, records, t)
    {
      PairsStep(rows, i, records, t);
      var more := CompareWithRest(rows, i, records, t);
      Regroup(comparisons, more, AllPairs(rows[i + 1..], records, t));
      comparisons := comparisons + more;
    }
    assert rows[|rows|..] == [];
  }

  function RowsOf(byPressure: map<int, seq<Row>>, pressure: int): seq<Row> {
    if pressure in byPressure then byPressure[pressure] else []
  }

  ghost predicate Grouped(byPressure: map<int, seq<Row>>, summary: seq<Row>) {
    forall p :: RowsOf(byPressure, p) == AtPressure(summary, p)
  }

  lemma OneMoreRow(byPressure: map<int, seq<Row>>, front: seq<Row>, row: Row)
    requires Grouped(byPressure, front)
    ensures Grouped(byPressure[row.pressureMib := RowsOf(byPressure, row.pressureMib) + [row]], front + [row])
  {
    assert (front + [row])[..|front|] == front;
    var grown := byPressure[row.pressureMib := RowsOf(byPressure, row.pressureMib) + [row]];
    forall p ensures RowsOf(grown, p) == AtPressure(front + [row], p) {
      assert RowsOf(byPressure, p) == AtPressure(front, p);
      assert AtPressure(front, p) + [] == AtPressure(front, p);
    }
  }

  method GroupByPressure(summary: seq<Row>) returns (pressures: seq<int>, byPressure: map<int, seq<Row>>)
    ensures pressures == Pressures(summary) && Grouped(byPressure, summary)
  {
    pressures, byPressure := [], map[];
    for i := 0 to |summary|
      invariant pressures == Pressures(summary[..i]) && Grouped(byPressure, summary[..i])
      invariant forall p :: p in pressures <==> p in byPressure
    {
      var row := summary[i];
      OneMoreRow(byPressure, summary[..i], row);
      assert summary[..i] + [row] == summary[..i + 1] && summary[..i + 1][..i] == summary[..i];
      if row.pressureMib !in byPressure {
        pressures := pressures + [row.pressureMib];
      }
      byPressure := byPressure[row.pressureMib := RowsOf(byPressure, row.pressureMib) + [row]];
    }
    assert summary[..|summary|] == summary;
  }

  predicate Eligible(c: Comparison) {
    c.hitRateImprovement > 0.0 && c.pressureEvidence
  }

  /** The best tradeoff is the first, among comparisons with more hits and worse memory, of those
      with the largest gap. */
  ghost predicate IsBest(best: Option<Comparison>, comparisons: seq<Comparison>) {
    match best
    case None => forall c <- comparisons :: c.hitRateImprovement <= 0.0 || !c.pressureEvidence
    case Some(b) => exists k :: 0 <= k < |comparisons| && comparisons[k] == b && FirstBest(comparisons, k)
  }

  ghost predicate FirstBest(comparisons: seq<Comparison>, k: nat)
    requires k < |comparisons|
  {
    && comparisons[k].hitRateImprovement > 0.0 && comparisons[k].pressureEvidence
    && forall l ::
         0 <= l < |comparisons| && comparisons[l].hitRateImprovement > 0.0 && comparisons[l].pressureEvidence ==>
         if l < k then comparisons[l].throughputGap < comparisons[k].throughputGap
         else comparisons[l].throughputGap <= comparisons[k].throughputGap
  }

  method BestTradeoff(comparisons: seq<Comparison>) returns (best: Option<Comparison>)
    ensures IsBest(best, comparisons)
  {
    best := None;
    ghost var at := 0;
    for i := 0 to |comparisons|
      invariant best.None? ==> forall l :: 0 <= l < i ==> !Eligible(comparisons[l])
      invariant best.Some? ==>
                  at < i && comparisons[at] == best.value && FirstBest(comparisons[..i], at)
    {
      var c := comparisons[i];
      if Eligible(c) && (best.None? || c.throughputGap > best.value.throughputGap) {
        best, at := Some(c), i;
      }
    }
    assert comparisons[..|comparisons|] == comparisons;
  }

  function ComparisonsAt(
    pressure: int, summary: seq<Row>, records: Option<seq<RunRecord>>, t: Thresholds): seq<Comparison>
  {
    AllPairs(ByCache(AtPressure(summary, pressure)), records, t)
  }

  lemma OneMorePressure(
    pressures: seq<int>, i: nat, summary: seq<Row>, records: Option<seq<RunRecord>>, t: Thresholds)
    requires i < |pressures|
    ensures Comparisons(pressures[..i + 1], summary, records, t)
         == Comparisons(pressures[..i], summary, records, t) + ComparisonsAt(pressures[i], summary, records, t)
  {
    assert pressures[..i + 1][..i] == pressures[..i];
  }

  method ComparePressure(pressure: int, byPressure: map<int, seq<Row>>, ghost summary: seq<Row>,
                         records: Option<seq<RunRecord>>, t: Thresholds)
    returns (comparisons: seq<Comparison>)
    requires Grouped(byPressure, summary)
    ensures comparisons == ComparisonsAt(pressure, summary, records, t)
  {
    comparisons := CompareRows(ByCache(RowsOf(byPressure, pressure)), records, t);
  }

  method CompareByPressure(summary: seq<Row>, records: Option<seq<RunRecord>>, t: Thresholds)
    returns (comparisons: seq<Comparison>)
    ensures comparisons == Comparisons(Pressures(summary), summary, records, t)
  {
    var pressures, byPressure := GroupByPressure(summary);
    comparisons := [];
    for i := 0 to |pressures|
      invariant comparisons == Comparisons(pressures[..i], summary, records, t)
    {
      OneMorePressure(pressures, i, summary, records, t);
      var more := ComparePressure(pressures[i], byPressure, summary, records, t);
      comparisons := comparisons + more;
    }
    assert pressures[..|pressures|] == pressures;
  }

  method Gate1Verdict(summary: seq<Row>, records: Option<seq<RunRecord>>, t: Thresholds) returns (v: Verdict)
    ensures v.comparisons == Comparisons(Pressures(summary), summary, records, t)
    ensures v.candidates == Passed(v.comparisons)
    ensures v.passed <==> exists i :: 0 <= i < |v.comparisons| && v.comparisons[i].passed
    ensures IsBest(v.bestTradeoff, v.comparisons)
  {
    var comparisons := CompareByPressure(summary, records, t);
    var candidates := Candidates(comparisons);
    var best := BestTradeoff(comparisons);
    PassedIsEmpty(comparisons);
    return Verdict(candidates != [], comparisons, candidates, best);
  }

  function Passed(comparisons: seq<Comparison>): seq<Comparison> {
    if comparisons == [] then []
    else
      var c := comparisons[|comparisons| - 1];
      Passed(comparisons[..|comparisons| - 1]) + if c.passed then [c] else []
  }

  lemma {:induction false} PassedIsEmpty(comparisons: seq<Comparison>)
    ensures Passed(comparisons) == [] <==> forall i :: 0 <= i < |comparisons| ==> !comparisons[i].passed
  {
    if comparisons != [] {
      PassedIsEmpty(comparisons[..|comparisons| - 1]);
    }
  }

  method Candidates(comparisons: seq<Comparison>) returns (candidates: seq<Comparison>)
    ensures candidates == Passed(comparisons)
  {
    candidates := [];
    for i := 0 to |comparisons|
      invariant candidates == Passed(comparisons[..i])
    {
      assert comparisons[..i + 1][..i] == comparisons[..i];
      if comparisons[i].passed { candidates := candidates + [comparisons[i]]; }
    }
    assert comparisons[..|comparisons|] == comparisons;
  }

  // ----- Stricter thresholds never add a candidate -----------------------------------

  /** c under the stricter thresholds, d under the looser: the same pair, and c passes only if d does. */
  ghost predicate Weaker(c: Comparison, d: Comparison) {
    c.small == d.small && c.large == d.large && (c.passed ==> d.passed)
  }

  ghost predicate AllWeaker(cs: seq<Comparison>, ds: seq<Comparison>) {
    |cs| == |ds| && forall i :: 0 <= i < |cs| ==> Weaker(cs[i], ds[i])
  }

  lemma CompareIsMonotone(small: Row, large: Row, records: Option<seq<RunRecord>>, s: Thresholds, t: Thresholds)
    requires Comparable(small, large) && Stricter(s, t)
    ensures Weaker(Compare(small, large, records, s), Compare(small, large, records, t))
  {
  }

  lemma {:induction false} AgainstRestIsMonotone(
    small: Row, rest: seq<Row>, records: Option<seq<RunRecord>>, s: Thresholds, t: Thresholds)
    requires Stricter(s, t)
    ensures AllWeaker(AgainstRest(small, rest, records, s), AgainstRest(small, rest, records, t))
  {
    if rest != [] {
      AgainstRestIsMonotone(small, rest[1..], records, s, t);
      if Comparable(small, rest[0]) {
        CompareIsMonotone(small, rest[0], records, s, t);
      }
    }
  }

  lemma {:induction false} AllPairsIsMonotone(
    rows: seq<Row>, records: Option<seq<RunRecord>>, s: Thresholds, t: Thresholds)
    requires Stricter(s, t)
    ensures AllWeaker(AllPairs(rows, records, s), AllPairs(rows, records, t))
  {
    if rows != [] {
      AgainstRestIsMonotone(rows[0], rows[1..], records, s, t);
      AllPairsIsMonotone(rows[1..], records, s, t);
    }
  }

  lemma {:induction false} StricterNeverAdds(
    pressures: seq<int>, summary: seq<Row>, records: Option<seq<RunRecord>>, s: Thresholds, t: Thresholds)
    requires Stricter(s, t)
    ensures AllWeaker(Comparisons(pressures, summary, records, s), Comparisons(pressures, summary, records, t))
  {
    if pressures != [] {
      var n := |pressures| - 1;
      StricterNeverAdds(pressures[..n], summary, records, s, t);
      AllPairsIsMonotone(ByCache(AtPressure(summary, pressures[n])), records, s, t);
    }
  }

  /** Nor does it ever turn a failed verdict into a pass. */
  lemma {:induction false} FewerPass(cs: seq<Comparison>, ds: seq<Comparison>)
    requires AllWeaker(cs, ds)
    ensures |Passed(cs)| <= |Passed(ds)|
  {
    if cs != [] {
      var n := |cs| - 1;
      assert Weaker(cs[n], ds[n]);
      FewerPass(cs[..n], ds[..n]);
    }
  }

  // ----- Which pairs are compared -----------------------------------------------------

  /** Row i is sorted before row j: a smaller cache, or an equal one earlier in the summary. */
  predicate Comes(summary: seq<Row>, i: nat, j: nat)
    requires i < |summary| && j < |summary|
  {
    || summary[i].cacheMib < summary[j].cacheMib
    || (summary[i].cacheMib == summary[j].cacheMib && i < j)
  }

  ghost predicate InRange(summary: seq<Row>, order: seq<nat>) {
    forall k :: 0 <= k < |order| ==> order[k] < |summary|
  }

  ghost predicate Ordered(summary: seq<Row>, order: seq<nat>)
    requires InRange(summary, order)
  {
    forall k, l :: 0 <= k < l < |order| ==> Comes(summary, order[k], order[l])
  }

  ghost function Rows(summary: seq<Row>, order: seq<nat>): (rows: seq<Row>)
    requires InRange(summary, order)
    ensures |rows| == |order| && forall k :: 0 <= k < |rows| ==> rows[k] == summary[order[k]]
  {
    seq(|order|, k requires 0 <= k < |order| => summary[order[k]])
  }

  /** Where the rows at one pressure are in the summary. */
  ghost function PositionsAt(summary: seq<Row>, pressure: int): (ps: seq<nat>)
    ensures InRange(summary, ps)
    ensures forall i :: i in ps <==> 0 <= i < |summary| && summary[i].pressureMib == pressure
  {
    if summary == [] then []
    else
      var n := |summary| - 1;
      PositionsAt(summary[..n], pressure) + if summary[n].pressureMib == pressure then [n] else []
  }

  lemma {:induction false} PositionsIncrease(summary: seq<Row>, pressure: int)
    ensures Increasing(PositionsAt(summary, pressure))
  {
    if summary != [] {
      var front := PositionsAt(summary[..|summary| - 1], pressure);
      PositionsIncrease(summary[..|summary| - 1], pressure);
      assert forall k :: 0 <= k < |front| ==> front[k] in front;
    }
  }

  lemma {:induction false} RowsAtPressure(summary: seq<Row>, pressure: int)
    ensures AtPressure(summary, pressure) == Rows(summary, PositionsAt(summary, pressure))
  {
    if summary != [] {
      RowsAtPressure(summary[..|summary| - 1], pressure);
    }
  }

  /** InsertRow, on positions. */
  ghost function Place(summary: seq<Row>, i: nat, order: seq<nat>): (placed: seq<nat>)
    requires i < |summary| && InRange(summary, order)
    ensures InRange(summary, placed) && forall x :: x in placed <==> x == i || x in order
  {
    var n := |order| - 1;
    if order == [] || summary[order[n]].cacheMib <= summary[i].cacheMib then order + [i]
    else
      assert order == order[..n] + [order[n]];
      Place(summary, i, order[..n]) + [order[n]]
  }

  lemma {:induction false} RowsOfPlace(summary: seq<Row>, i: nat, order: seq<nat>)
    requires i < |summary| && InRange(summary, order)
    ensures InsertRow(summary[i], Rows(summary, order)) == Rows(summary, Place(summary, i, order))
  {
    var n := |order| - 1;
    if order != [] && summary[order[n]].cacheMib > summary[i].cacheMib {
      RowsOfPlace(summary, i, order[..n]);
      assert Rows(summary, order)[..n] == Rows(summary, order[..n]);
    }
  }

  lemma {:induction false} PlaceOrders(summary: seq<Row>, i: nat, order: seq<nat>)
    requires i < |summary| && InRange(summary, order) && Ordered(summary, order)
    requires forall k :: 0 <= k < |order| ==> order[k] < i
    ensures Ordered(summary, Place(summary, i, order))
  {
    var n := |order| - 1;
    if order != [] && summary[order[n]].cacheMib > summary[i].cacheMib {
      PlaceOrders(summary, i, order[..n]);
      var front := Place(summary, i, order[..n]);
      forall k | 0 <= k < |front| ensures Comes(summary, front[k], order[n]) {
        assert front[k] in front;
      }
    } else {
      forall k | 0 <= k < |order| ensures Comes(summary, order[k], i) {
        assert order[k] in order && (k < n ==> Comes(summary, order[k], order[n]));
      }
    }
  }

  /** ByCache, on positions. */
  ghost function OrderOf(summary: seq<Row>, ps: seq<nat>): (order: seq<nat>)
    requires InRange(summary, ps)
    ensures InRange(summary, order) && forall x :: x in order <==> x in ps
  {
    if ps == [] then []
    else
      assert ps == ps[..|ps| - 1] + [ps[|ps| - 1]];
      Place(summary, ps[|ps| - 1], OrderOf(summary, ps[..|ps| - 1]))
  }

  lemma {:induction false} OrderIsOrdered(summary: seq<Row>, ps: seq<nat>)
    requires InRange(summary, ps) && Increasing(ps)
    ensures Ordered(summary, OrderOf(summary, ps))
  {
    if ps != [] {
      var n := |ps| - 1;
      var order := OrderOf(summary, ps[..n]);
      OrderIsOrdered(summary, ps[..n]);
      forall k | 0 <= k < |order| ensures order[k] < ps[n] {
        assert order[k] in ps[..n];
      }
      PlaceOrders(summary, ps[n], order);
    }
  }

  lemma RowsFront(summary: seq<Row>, ps: seq<nat>)
    requires InRange(summary, ps) && ps != []
    ensures Rows(summary, ps)[..|ps| - 1] == Rows(summary, ps[..|ps| - 1])
    ensures Rows(summary, ps)[|ps| - 1] == summary[ps[|ps| - 1]]
  {
  }

  lemma {:induction false} RowsInOrder(summary: seq<Row>, ps: seq<nat>)
    requires InRange(summary, ps)
    ensures ByCache(Rows(summary, ps)) == Rows(summary, OrderOf(summary, ps))
  {
    if ps != [] {
      var n := |ps| - 1;
      RowsInOrder(summary, ps[..n]);
      RowsFront(summary, ps);
      RowsOfPlace(summary, ps[n], OrderOf(summary, ps[..n]));
    }
  }

  type Pair = (nat, nat)

  ghost predicate AllComparable(summary: seq<Row>, pairs: seq<Pair>) {
    forall k :: 0 <= k < |pairs| ==>
      && pairs[k].0 < |summary| && pairs[k].1 < |summary|
      && Comparable(summary[pairs[k].0], summary[pairs[k].1])
  }

  /** What the comparisons of these pairs say. */
  ghost function Evaluated(
    summary: seq<Row>, pairs: seq<Pair>, records: Option<seq<RunRecord>>, t: Thresholds): seq<Comparison>
    requires AllComparable(summary, pairs)
  {
    seq(|pairs|, k requires 0 <= k < |pairs| => Compare(summary[pairs[k].0], summary[pairs[k].1], records, t))
  }

  lemma EvaluatedSum(
    summary: seq<Row>, a: seq<Pair>, b: seq<Pair>, records: Option<seq<RunRecord>>, t: Thresholds)
    requires AllComparable(summary, a) && AllComparable(summary, b)
    ensures AllComparable(summary, a + b)
    ensures Evaluated(summary, a + b, records, t)
         == Evaluated(summary, a, records, t) + Evaluated(summary, b, records, t)
  {
  }

  ghost function PairsWith(summary: seq<Row>, i: nat, rest: seq<nat>): (pairs: seq<Pair>)
    requires i < |summary| && InRange(summary, rest)
    ensures AllComparable(summary, pairs)
    ensures forall k :: 0 <= k < |pairs| ==> pairs[k].0 == i && pairs[k].1 in rest
  {
    if rest == [] then []
    else
      (if Comparable(summary[i], summary[rest[0]]) then [(i, rest[0])] else []) + PairsWith(summary, i, rest[1..])
  }

  ghost function PairsIn(summary: seq<Row>, order: seq<nat>): (pairs: seq<Pair>)
    requires InRange(summary, order)
    ensures AllComparable(summary, pairs)
    ensures forall k :: 0 <= k < |pairs| ==> pairs[k].0 in order && pairs[k].1 in order
  {
    if order == [] then [] else PairsWith(summary, order[0], order[1..]) + PairsIn(summary, order[1..])
  }

  lemma {:induction false} RestIsEvaluated(
    summary: seq<Row>, i: nat, rest: seq<nat>, records: Option<seq<RunRecord>>, t: Thresholds)
    requires i < |summary| && InRange(summary, rest)
    ensures AgainstRest(summary[i], Rows(summary, rest), records, t)
         == Evaluated(summary, PairsWith(summary, i, rest), records, t)
  {
    if rest != [] {
      RestIsEvaluated(summary, i, rest[1..], records, t);
      assert Rows(summary, rest)[1..] == Rows(summary, rest[1..]);
      if Comparable(summary[i], summary[rest[0]]) {
        EvaluatedSum(summary, [(i, rest[0])], PairsWith(summary, i, rest[1..]), records, t);
      }
    }
  }

  lemma {:induction false} PairsAreEvaluated(
    summary: seq<Row>, order: seq<nat>, records: Option<seq<RunRecord>>, t: Thresholds)
    requires InRange(summary, order)
    ensures AllPairs(Rows(summary, order), records, t)
         == Evaluated(summary, PairsIn(summary, order), records, t)
  {
    if order != [] {
      RestIsEvaluated(summary, order[0], order[1..], records, t);
      PairsAreEvaluated(summary, order[1..], records, t);
      assert Rows(summary, order)[1..] == Rows(summary, order[1..]);
      EvaluatedSum(summary, PairsWith(summary, order[0], order[1..]), PairsIn(summary, order[1..]), records, t);
    }
  }

  ghost predicate NoRepeats<T>(xs: seq<T>) {
    forall k, l :: 0 <= k < l < |xs| ==> xs[k] != xs[l]
  }

  lemma {:induction false} PairsWithAre(summary: seq<Row>, i: nat, rest: seq<nat>)
    requires i < |summary| && InRange(summary, rest) && NoRepeats(rest)
    ensures NoRepeats(PairsWith(summary, i, rest))
    ensures forall j: nat :: (i, j) in PairsWith(summary, i, rest)
                        <==> j in rest && Comparable(summary[i], summary[j])
  {
    if rest != [] {
      PairsWithAre(summary, i, rest[1..]);
      assert rest == [rest[0]] + rest[1..];
    }
  }

  /** Two rows in order can be compared. */
  ghost predicate Meets(summary: seq<Row>, i: nat, j: nat)
    requires i < |summary| && j < |summary|
  {
    Comes(summary, i, j) && Comparable(summary[i], summary[j])
  }

  lemma OrderedTail(summary: seq<Row>, order: seq<nat>)
    requires InRange(summary, order) && Ordered(summary, order) && order != []
    ensures Ordered(summary, order[1..]) && forall x :: x in order[1..] ==> Comes(summary, order[0], x)
    ensures NoRepeats(order[1..]) && order[0] !in order[1..]
  {
    forall x | x in order[1..] ensures Comes(summary, order[0], x) {
      var k :| 0 <= k < |order[1..]| && order[1..][k] == x;
      assert order[k + 1] == x;
    }
  }

  lemma {:induction false} PairsInAre(summary: seq<Row>, order: seq<nat>, i: nat, j: nat)
    requires InRange(summary, order) && Ordered(summary, order)
    ensures (i, j) in PairsIn(summary, order) <==> i in order && j in order && Meets(summary, i, j)
  {
    if order != [] {
      OrderedTail(summary, order);
      assert order == [order[0]] + order[1..];
      PairsWithAre(summary, order[0], order[1..]);
      PairsInAre(summary, order[1..], i, j);
    }
  }

  lemma {:induction false} PairsInOnce(summary: seq<Row>, order: seq<nat>)
    requires InRange(summary, order) && Ordered(summary, order)
    ensures NoRepeats(PairsIn(summary, order))
  {
    if order != [] {
      OrderedTail(summary, order);
      PairsWithAre(summary, order[0], order[1..]);
      PairsInOnce(summary, order[1..]);
    }
  }

  ghost function PairsAt(summary: seq<Row>, pressure: int): (pairs: seq<Pair>)
    ensures AllComparable(summary, pairs)
    ensures forall k :: 0 <= k < |pairs| ==> summary[pairs[k].0].pressureMib == pressure
  {
    var ps := PositionsAt(summary, pressure);
    PairsIn(summary, OrderOf(summary, ps))
  }

  ghost function ComparedAt(summary: seq<Row>, pressures: seq<int>): (pairs: seq<Pair>)
    ensures AllComparable(summary, pairs)
    ensures forall k :: 0 <= k < |pairs| ==> summary[pairs[k].0].pressureMib in pressures
  {
    if pressures == [] then []
    else
      var n := |pressures| - 1;
      assert pressures == pressures[..n] + [pressures[n]];
      ComparedAt(summary, pressures[..n]) + PairsAt(summary, pressures[n])
  }

  lemma PairsAtPressure(summary: seq<Row>, pressure: int, records: Option<seq<RunRecord>>, t: Thresholds)
    ensures ComparisonsAt(pressure, summary, records, t)
         == Evaluated(summary, PairsAt(summary, pressure), records, t)
    ensures Ordered(summary, OrderOf(summary, PositionsAt(summary, pressure)))
  {
    PositionsIncrease(summary, pressure);
    RowsAtPressure(summary, pressure);
    RowsInOrder(summary, PositionsAt(summary, pressure));
    OrderIsOrdered(summary, PositionsAt(summary, pressure));
    PairsAreEvaluated(summary, OrderOf(summary, PositionsAt(summary, pressure)), records, t);
  }

  /** Both rows are at a pressure in this list, and are compared there. */
  ghost predicate MeetsAt(summary: seq<Row>, pressures: seq<int>, i: nat, j: nat) {
    && i < |summary| && j < |summary|
    && summary[i].pressureMib == summary[j].pressureMib && summary[i].pressureMib in pressures
    && Meets(summary, i, j)
  }

  lemma PairsAtAre(summary: seq<Row>, pressure: int, i: nat, j: nat)
    ensures (i, j) in PairsAt(summary, pressure) <==> MeetsAt(summary, [pressure], i, j)
    ensures NoRepeats(PairsAt(summary, pressure))
  {
    PairsAtPressure(summary, pressure, None, Thresholds(0.0, 0, 0));
    PairsInAre(summary, OrderOf(summary, PositionsAt(summary, pressure)), i, j);
    PairsInOnce(summary, OrderOf(summary, PositionsAt(summary, pressure)));
  }

  lemma {:induction false} ComparedAtIsEvaluated(
    summary: seq<Row>, pressures: seq<int>, records: Option<seq<RunRecord>>, t: Thresholds)
    ensures Comparisons(pressures, summary, records, t)
         == Evaluated(summary, ComparedAt(summary, pressures), records, t)
  {
    if pressures != [] {
      var n := |pressures| - 1;
      ComparedAtIsEvaluated(summary, pressures[..n], records, t);
      PairsAtPressure(summary, pressures[n], records, t);
      EvaluatedSum(summary, ComparedAt(summary, pressures[..n]), PairsAt(summary, pressures[n]), records, t);
    }
  }

  lemma MeetsAtOneMore(summary: seq<Row>, pressures: seq<int>, i: nat, j: nat)
    requires pressures != []
    ensures
      var n := |pressures| - 1;
      MeetsAt(summary, pressures, i, j) <==>
        MeetsAt(summary, pressures[..n], i, j) || MeetsAt(summary, [pressures[n]], i, j)
  {
    assert pressures == pressures[..|pressures| - 1] + [pressures[|pressures| - 1]];
  }

  lemma ComparedAtOneMore(summary: seq<Row>, pressures: seq<int>, pair: Pair)
    requires pressures != []
    ensures
      var n := |pressures| - 1;
      pair in ComparedAt(summary, pressures) <==>
        pair in ComparedAt(summary, pressures[..n]) || pair in PairsAt(summary, pressures[n])
  {
  }

  lemma {:induction false} ComparedAtAre(summary: seq<Row>, pressures: seq<int>, i: nat, j: nat)
    ensures (i, j) in ComparedAt(summary, pressures) <==> MeetsAt(summary, pressures, i, j)
  {
    if pressures != [] {
      var n := |pressures| - 1;
      ComparedAtOneMore(summary, pressures, (i, j));
      MeetsAtOneMore(summary, pressures, i, j);
      ComparedAtAre(summary, pressures[..n], i, j);
      PairsAtAre(summary, pressures[n], i, j);
    }
  }

  lemma {:induction false} ComparedAtOnce(summary: seq<Row>, pressures: seq<int>)
    requires NoRepeats(pressures)
    ensures NoRepeats(ComparedAt(summary, pressures))
  {
    if pressures != [] {
      var n := |pressures| - 1;
      ComparedAtOnce(summary, pressures[..n]);
      PairsAtAre(summary, pressures[n], 0, 0);
      assert pressures[n] !in pressures[..n];
    }
  }

  lemma {:induction false} PressuresAreAll(summary: seq<Row>)
    ensures NoRepeats(Pressures(summary))
    ensures forall i :: 0 <= i < |summary| ==> summary[i].pressureMib in Pressures(summary)
  {
    if summary != [] {
      PressuresAreAll(summary[..|summary| - 1]);
    }
  }

  /** The pairs of positions whose rows the verdict compares, in its order. */
  ghost function Compared(summary: seq<Row>): (pairs: seq<Pair>)
    ensures AllComparable(summary, pairs)
  {
    ComparedAt(summary, Pressures(summary))
  }

  /** The verdict compares these pairs, one comparison for each ... */
  lemma VerdictComparesPairs(summary: seq<Row>, records: Option<seq<RunRecord>>, t: Thresholds)
    ensures Comparisons(Pressures(summary), summary, records, t)
         == Evaluated(summary, Compared(summary), records, t)
  {
    ComparedAtIsEvaluated(summary, Pressures(summary), records, t);
  }

  /** ... and they are all pairs at one pressure that can be compared, the row with the smaller
      cache first and rows of equal caches in the order of the summary. */
  lemma VerdictComparesAll(summary: seq<Row>, i: nat, j: nat)
    requires i < |summary| && j < |summary|
    ensures (i, j) in Compared(summary) <==>
              && summary[i].pressureMib == summary[j].pressureMib
              && (summary[i].cacheMib < summary[j].cacheMib || (summary[i].cacheMib == summary[j].cacheMib && i < j))
              && summary[i].decodeTps.Some? && summary[j].decodeTps.Some? && summary[i].decodeTps.value != 0.0
              && summary[i].expertHitRate.Some? && summary[j].expertHitRate.Some?
  {
    PressuresAreAll(summary);
    ComparedAtAre(summary, Pressures(summary), i, j);
  }

  /** No two comparisons are of the same two rows, either way round. */
  lemma VerdictComparesOnce(summary: seq<Row>, k: nat, l: nat)
    requires k < l < |Compared(summary)|
    ensures
      var p, q := Compared(summary)[k], Compared(summary)[l];
      p != q && p != (q.1, q.0) && p.0 != p.1
  {
    PressuresAreAll(summary);
    ComparedAtOnce(summary, Pressures(summary));
    var p, q := Compared(summary)[k], Compared(summary)[l];
    assert (p.0, p.1) in Compared(summary) && (q.0, q.1) in Compared(summary);
    VerdictComparesAll(summary, p.0, p.1);
    VerdictComparesAll(summary, q.0, q.1);
  }

  /** Every comparison puts the smaller cache first. */
  lemma SmallerFirst(summary: seq<Row>, records: Option<seq<RunRecord>>, t: Thresholds)
    ensures forall c <- Comparisons(Pressures(summary), summary, records, t) :: c.small.cacheMib <= c.large.cacheMib
  {
    VerdictComparesPairs(summary, records, t);
    var pairs := Compared(summary);
    forall k | 0 <= k < |pairs| ensures Comes(summary, pairs[k].0, pairs[k].1) {
      assert (pairs[k].0, pairs[k].1) in pairs;
      VerdictComparesAll(summary, pairs[k].0, pairs[k].1);
    }
  }

  // ----- On a complete artifact -----------------------------------------------------

  /** A comparison has a gap for every repetition, so the number of repetitions passes or fails
      for the whole experiment at once. */
  ghost predicate GapsAreThere(c: Comparison, repetitions: nat, t: Thresholds) {
    && |c.pairedGaps| == repetitions > 0
    && (c.repetitionEvidence <==>
          && repetitions >= t.minimumRepetitions
          && c.directionalSupport >= t.minimumDirectionalSupport && Median(c.pairedGaps) >= t.gap)
  }

  lemma CompareHasEveryGap(
    spec: ExperimentSpec, records: seq<RunRecord>, a: Artifact, small: Row, large: Row, t: Thresholds,
    s: ArmSpec, l: ArmSpec)
    requires Loaded(spec) && Completed(spec, records) && Admits(records, spec, a) && a.complete
    requires s in spec.arms && l in spec.arms && small.armName == s.name && large.armName == l.name
    requires Comparable(small, large)
    ensures GapsAreThere(Compare(small, large, Some(a.records), t), spec.repetitions, t)
  {
    EndToEndPairing(spec, records, a, s, l);
  }

  ghost predicate IsArm(spec: ExperimentSpec, name: string) {
    exists arm :: arm in spec.arms && arm.name == name
  }

  /** From the schedule to the verdict: over a complete artifact every comparison the verdict
      makes between arms of the experiment has exactly one gap a repetition. */
  lemma VerdictHasEveryGap(
    spec: ExperimentSpec, records: seq<RunRecord>, a: Artifact, summary: seq<Row>, t: Thresholds)
    requires Loaded(spec) && Completed(spec, records) && Admits(records, spec, a) && a.complete
    requires forall i :: 0 <= i < |summary| ==> IsArm(spec, summary[i].armName)
    ensures forall c <- Comparisons(Pressures(summary), summary, Some(a.records), t) ::
              GapsAreThere(c, spec.repetitions, t)
  {
    VerdictComparesPairs(summary, Some(a.records), t);
    var pairs := Compared(summary);
    forall k | 0 <= k < |pairs|
      ensures GapsAreThere(Evaluated(summary, pairs, Some(a.records), t)[k], spec.repetitions, t)
    {
      var small, large := summary[pairs[k].0], summary[pairs[k].1];
      assert IsArm(spec, small.armName) && IsArm(spec, large.armName);
      var s :| s in spec.arms && s.name == small.armName;
      var l :| l in spec.arms && l.name == large.armName;
      CompareHasEveryGap(spec, records, a, small, large, t, s, l);
    }
  }

  // ----- Gains of a purgeable candidate -----------------------------------------------

  datatype GainReport = GainReport(gains: seq<real>, median: Option<real>, ci: Option<(real, real)>)

  /** A candidate arm against one baseline arm, over the repetitions both have. */
  method CompareArms(records: seq<RunRecord>, candidate: string, baseline: string, draws: nat) returns (g: GainReport)
    requires draws > 0
    ensures
      var b, c := Throughputs(records, baseline), Throughputs(records, candidate);
      var shared := Sorted(b.Keys * c.Keys);
      && |g.gains| == |shared|
      && (forall i :: 0 <= i < |shared| ==> g.gains[i] == c[shared[i]] / b[shared[i]] - 1.0)
      && (g.median.Some? <==> shared != [])
      && (shared != [] ==> g.median.value == -Median(Gaps(b, c)))
    ensures g.ci.Some? <==> |g.gains| >= 2
    ensures g.ci.Some? ==> forall low, high :: Between(low, high, g.gains) ==>
              low <= g.ci.value.0 <= g.ci.value.1 <= high
  {
    var slowdowns := PairedThroughputGaps(records, baseline, candidate);
    var gains := Negated(slowdowns);
    ghost var b, c := Throughputs(records, baseline), Throughputs(records, candidate);
    ghost var shared := Sorted(b.Keys * c.Keys);
    forall i | 0 <= i < |shared| ensures gains[i] == c[shared[i]] / b[shared[i]] - 1.0 {
      GainIsRelative(b[shared[i]], c[shared[i]]);
    }
    var median: Option<real> := None;
    if gains != [] {
      MedianOfNegated(slowdowns);
      median := Some(Median(gains));
    }
    ghost var samples;
    var ci;
    ci, samples := BootstrapMedianCi(gains, draws);
    return GainReport(gains, median, ci);
  }
}

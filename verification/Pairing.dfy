/** Pairing: what a complete admission artifact guarantees to the analysis. */
module Pairing {
  import opened Options
  import opened Schema
  import opened Schedule
  import opened Runner
  import opened Admission

  // ----- Paired gaps ----------------------------------------------------------------

  predicate Counts(r: RunRecord, arm: string) {
    r.armName == arm && r.runtime.decodeTps.Some? && r.runtime.decodeTps.value != 0.0
  }

  /** Repetition to throughput for one arm; a later record replaces an earlier one. */
  function Throughputs(records: seq<RunRecord>, arm: string): (m: map<nat, real>)
    ensures forall r <- m :: m[r] != 0.0
  {
    if records == [] then map[]
    else
      var m, r := Throughputs(records[..|records| - 1], arm), records[|records| - 1];
      if Counts(r, arm) then m[r.repetition := r.runtime.decodeTps.value] else m
  }

  ghost predicate Increasing(s: seq<nat>) {
    forall i, j :: 0 <= i < j < |s| ==> s[i] < s[j]
  }

  ghost predicate IsLeast(m: nat, s: set<nat>) {
    m in s && forall x <- s :: m <= x
  }

  lemma {:induction false} LeastExists(s: set<nat>) returns (m: nat)
    requires s != {}
    ensures IsLeast(m, s)
  {
    m :| m in s;
    if s - {m} != {} {
      var r := LeastExists(s - {m});
      var least := if m <= r then m else r;
      forall x | x in s ensures least <= x {
        assert x == m || x in s - {m};
      }
      m := least;
    } else {
      forall x | x in s ensures x == m {
        assert x != m ==> x in s - {m};
      }
    }
  }

  lemma HasLeast(s: set<nat>)
    requires s != {}
    ensures exists m :: m in s && forall x <- s :: m <= x
  {
    var m := LeastExists(s);
  }

  function Least(s: set<nat>): (m: nat)
    requires s != {}
    ensures IsLeast(m, s)
  {
    HasLeast(s);
    var m :| m in s && forall x <- s :: m <= x;
    m
  }

  function Sorted(s: set<nat>): (r: seq<nat>)
    ensures forall i :: 0 <= i < |r| ==> r[i] in s
  {
    if s == {} then [] else [Least(s)] + Sorted(s - {Least(s)})
  }

  lemma {:induction false} SortedIsComplete(s: set<nat>, x: nat)
    requires x in s
    ensures x in Sorted(s)
  {
    if x != Least(s) {
      SortedIsComplete(s - {Least(s)}, x);
    }
  }

  lemma {:induction false} SortedIsIncreasing(s: set<nat>)
    ensures Increasing(Sorted(s))
  {
    if s != {} {
      var m, rest := Least(s), Sorted(s - {Least(s)});
      SortedIsIncreasing(s - {m});
      forall i | 0 <= i < |rest| ensures m < rest[i] {
        assert rest[i] in s - {m};
      }
    }
  }

  function Gap(small: real, large: real): real
    requires small != 0.0
  {
    (small - large) / small
  }

  /** The gaps of the shared repetitions, in increasing order of repetition. */
  function Gaps(small: map<nat, real>, large: map<nat, real>): seq<real>
    requires forall r <- small :: small[r] != 0.0
  {
    var repetitions := Sorted(small.Keys * large.Keys);
    seq(|repetitions|, i requires 0 <= i < |repetitions| => Gap(small[repetitions[i]], large[repetitions[i]]))
  }

  function Of(byArm: map<string, map<nat, real>>, arm: string): map<nat, real> {
    if arm in byArm then byArm[arm] else map[]
  }

  method PairedThroughputGaps(records: seq<RunRecord>, smallArm: string, largeArm: string)
    returns (gaps: seq<real>)
    ensures gaps == Gaps(Throughputs(records, smallArm), Throughputs(records, largeArm))
  {
    var byArm: map<string, map<nat, real>> := map[];
    for i := 0 to |records|
      invariant forall arm :: Of(byArm, arm) == Throughputs(records[..i], arm)
    {
      var r := records[i];
      assert records[..i + 1][..i] == records[..i];
      if r.runtime.decodeTps.Some? && r.runtime.decodeTps.value != 0.0 {
        byArm := byArm[r.armName := Of(byArm, r.armName)[r.repetition := r.runtime.decodeTps.value]];
      }
    }
    assert records[..|records|] == records;
    gaps := GapList(Of(byArm, smallArm), Of(byArm, largeArm));
  }

  method GapList(small: map<nat, real>, large: map<nat, real>) returns (gaps: seq<real>)
    requires forall r <- small :: small[r] != 0.0
    ensures gaps == Gaps(small, large)
  {
    var repetitions := Sorted(small.Keys * large.Keys);
    gaps := [];
    for i := 0 to |repetitions|
      invariant gaps == Gaps(small, large)[..i]
    {
      var r := repetitions[i];
      gaps := gaps + [(small[r] - large[r]) / small[r]];
    }
  }

  // ----- Which records are measured -------------------------------------------------

  lemma {:induction false} MeasuredIsTail(records: seq<RunRecord>, k: nat)
    requires k <= |records|
    requires forall i :: 0 <= i < |records| ==> (records[i].warmup <==> i < k)
    ensures Measured(records) == records[k..]
  {
    if records != [] {
      var n := |records| - 1;
      if k == |records| {
        MeasuredIsTail(records[..n], n);
      } else {
        MeasuredIsTail(records[..n], k);
        assert records[k..] == records[..n][k..] + [records[n]];
      }
    }
  }

  /** The measured records follow the measured half of the schedule, one for one. */
  lemma MeasuredFollowsSchedule(spec: ExperimentSpec, records: seq<RunRecord>)
    requires Completed(spec, records)
    ensures
      var turns, measured := Rounds(spec.arms, spec.repetitions, false), Measured(records);
      && |measured| == |turns|
      && forall i :: 0 <= i < |turns| ==>
           measured[i].armName == turns[i].arm.name && measured[i].repetition == turns[i].repetition
  {
    var warm, turns := Rounds(spec.arms, spec.warmups, true), Rounds(spec.arms, spec.repetitions, false);
    RoundsAreOfOneKind(spec.arms, spec.warmups, true);
    RoundsAreOfOneKind(spec.arms, spec.repetitions, false);
    assert forall i :: 0 <= i < |turns| ==> IsTurn(records[|warm| + i], turns[i], |warm| + i);
    MeasuredIsTail(records, |warm|);
  }

  predicate IsFor(r: RunRecord, arm: string, repetition: nat) {
    r.armName == arm && r.repetition == repetition
  }

  /** Names tell arms apart. */
  lemma SameNameSameArm(spec: ExperimentSpec, a: ArmSpec, b: ArmSpec)
    requires Loaded(spec) && a in spec.arms && b in spec.arms && a.name == b.name
    ensures a == b
  {
  }

  lemma SameTurn(spec: ExperimentSpec, turns: seq<Turn>, i: nat, j: nat)
    requires Loaded(spec) && turns == Rounds(spec.arms, spec.repetitions, false)
    requires i < |turns| && j < |turns|
    requires turns[i].arm.name == turns[j].arm.name && turns[i].repetition == turns[j].repetition
    ensures i == j
  {
    assert turns[i] in turns && turns[j] in turns;
    EveryTurnIsScheduled(spec.arms, spec.repetitions, false, turns[i]);
    EveryTurnIsScheduled(spec.arms, spec.repetitions, false, turns[j]);
    SameNameSameArm(spec, turns[i].arm, turns[j].arm);
    assert turns[i] == turns[j];
    NoTurnTwice(spec.arms, spec.repetitions, false);
  }

  lemma TurnExists(spec: ExperimentSpec, arm: ArmSpec, r: nat) returns (i: nat)
    requires arm in spec.arms && r < spec.repetitions
    ensures i < |Rounds(spec.arms, spec.repetitions, false)|
    ensures Rounds(spec.arms, spec.repetitions, false)[i] == Turn(arm, r, false)
  {
    EveryTurnIsScheduled(spec.arms, spec.repetitions, false, Turn(arm, r, false));
    i :| i < |Rounds(spec.arms, spec.repetitions, false)|
      && Rounds(spec.arms, spec.repetitions, false)[i] == Turn(arm, r, false);
  }

  /** Every arm and repetition has a measured record, and only one. */
  lemma OneRecordEach(spec: ExperimentSpec, records: seq<RunRecord>, arm: ArmSpec, r: nat) returns (i: nat)
    requires Loaded(spec) && Completed(spec, records) && arm in spec.arms && r < spec.repetitions
    ensures i < |Measured(records)| && IsFor(Measured(records)[i], arm.name, r)
    ensures forall j :: 0 <= j < |Measured(records)| && IsFor(Measured(records)[j], arm.name, r) ==> j == i
  {
    var turns, measured := Rounds(spec.arms, spec.repetitions, false), Measured(records);
    MeasuredFollowsSchedule(spec, records);
    i := TurnExists(spec, arm, r);
    forall j | 0 <= j < |measured| && IsFor(measured[j], arm.name, r) ensures j == i {
      SameTurn(spec, turns, i, j);
    }
  }

  lemma NoOtherRepetition(spec: ExperimentSpec, records: seq<RunRecord>, i: nat)
    requires Completed(spec, records) && i < |Measured(records)|
    ensures Measured(records)[i].repetition < spec.repetitions
  {
    var turns := Rounds(spec.arms, spec.repetitions, false);
    MeasuredFollowsSchedule(spec, records);
    assert turns[i] in turns;
    EveryTurnIsScheduled(spec.arms, spec.repetitions, false, turns[i]);
  }

  // ----- Complete artifacts ----------------------------------------------------------

  lemma {:induction false} ThroughputsAreRecords(records: seq<RunRecord>, arm: string, r: nat)
    requires r in Throughputs(records, arm)
    ensures exists i :: 0 <= i < |records| && IsFor(records[i], arm, r)
  {
    var n := |records| - 1;
    if IsFor(records[n], arm, r) {
    } else {
      ThroughputsAreRecords(records[..n], arm, r);
      var i :| 0 <= i < n && IsFor(records[..n][i], arm, r);
      assert IsFor(records[i], arm, r);
    }
  }

  lemma {:induction false} ThroughputOfRecord(records: seq<RunRecord>, arm: string, r: nat, i: nat)
    requires i < |records| && IsFor(records[i], arm, r) && Counts(records[i], arm)
    requires forall j :: 0 <= j < |records| && IsFor(records[j], arm, r) ==> j == i
    ensures r in Throughputs(records, arm) && Throughputs(records, arm)[r] == records[i].runtime.decodeTps.value
  {
    var n := |records| - 1;
    if i < n {
      var rest := records[..n];
      assert forall j :: 0 <= j < n ==> rest[j] == records[j];
      ThroughputOfRecord(rest, arm, r, i);
      assert !IsFor(records[n], arm, r);
    }
  }

  /** A complete artifact of a returned experiment is the whole of its measured records. */
  lemma CompleteIsEverything(spec: ExperimentSpec, records: seq<RunRecord>, a: Artifact)
    requires Admits(records, spec, a) && a.complete
    ensures a.records == Measured(records)
  {
    SelectIsWithinMeasured(records, Flags(records, a.decisions));
  }

  /** In a complete artifact an arm has one throughput for each repetition, that of its one
      record there. */
  lemma OneThroughput(spec: ExperimentSpec, records: seq<RunRecord>, a: Artifact, arm: ArmSpec, r: nat)
    returns (i: nat)
    requires Loaded(spec) && Completed(spec, records) && Admits(records, spec, a) && a.complete
    requires arm in spec.arms && r < spec.repetitions
    ensures i < |a.records| && IsFor(a.records[i], arm.name, r)
    ensures forall j :: 0 <= j < |a.records| && IsFor(a.records[j], arm.name, r) ==> j == i
    ensures a.records[i].runtime.decodeTps.Some?
    ensures r in Throughputs(a.records, arm.name)
    ensures Throughputs(a.records, arm.name)[r] == a.records[i].runtime.decodeTps.value
  {
    CompleteIsEverything(spec, records, a);
    i := OneRecordEach(spec, records, arm, r);
    assert a.records[i] in a.records;
    AdmittedIsAdmissible(records, spec, a, a.records[i]);
    assert !Fails(a.records[i], spec, ThroughputMissing);
    ThroughputOfRecord(a.records, arm.name, r, i);
  }

  lemma NoMoreThroughputs(spec: ExperimentSpec, records: seq<RunRecord>, a: Artifact, arm: string, r: nat)
    requires Completed(spec, records) && Admits(records, spec, a) && a.complete
    requires r in Throughputs(a.records, arm)
    ensures r < spec.repetitions
  {
    CompleteIsEverything(spec, records, a);
    ThroughputsAreRecords(a.records, arm, r);
    var i :| 0 <= i < |a.records| && IsFor(a.records[i], arm, r);
    NoOtherRepetition(spec, records, i);
  }

  lemma {:induction false} IncreasingClimbs(s: seq<nat>, i: nat)
    requires Increasing(s) && i < |s|
    ensures i <= s[i]
  {
    if i > 0 {
      IncreasingClimbs(s, i - 1);
    }
  }

  lemma {:induction false} AtOwnPlace(s: seq<nat>, n: nat, i: nat)
    requires Increasing(s) && i < n && forall x: nat :: x < n ==> x in s
    ensures i < |s| && s[i] == i
  {
    assert i in s;
    var j: nat :| j < |s| && s[j] == i;
    IncreasingClimbs(s, j);
    if j < i {
      AtOwnPlace(s, n, j);
    }
  }

  /** The numbers below n, sorted, are each at their own place. */
  lemma SortedBelow(s: seq<nat>, n: nat)
    requires Increasing(s) && (forall i :: 0 <= i < |s| ==> s[i] < n) && forall x: nat :: x < n ==> x in s
    ensures |s| == n && forall i :: 0 <= i < n ==> s[i] == i
  {
    if |s| > 0 {
      IncreasingClimbs(s, |s| - 1);
    }
    forall i | 0 <= i < n ensures i < |s| && s[i] == i {
      AtOwnPlace(s, n, i);
    }
    if n > 0 {
      AtOwnPlace(s, n, n - 1);
    }
  }

  /** End to end: any two arms of a complete artifact give exactly one gap a repetition. */
  lemma EndToEndPairing(
    spec: ExperimentSpec, records: seq<RunRecord>, a: Artifact, small: ArmSpec, large: ArmSpec)
    requires Loaded(spec) && Completed(spec, records) && Admits(records, spec, a) && a.complete
    requires small in spec.arms && large in spec.arms
    ensures
      var s, l := Throughputs(a.records, small.name), Throughputs(a.records, large.name);
      var shared := Sorted(s.Keys * l.Keys);
      && |Gaps(s, l)| == spec.repetitions == |shared|
      && forall r :: 0 <= r < spec.repetitions ==> shared[r] == r
  {
    var s, l := Throughputs(a.records, small.name), Throughputs(a.records, large.name);
    var both := s.Keys * l.Keys;
    forall r: nat | r < spec.repetitions ensures r in both {
      var i := OneThroughput(spec, records, a, small, r);
      var j := OneThroughput(spec, records, a, large, r);
    }
    forall r | r in both ensures r < spec.repetitions {
      NoMoreThroughputs(spec, records, a, small.name, r);
    }
    SortedIsIncreasing(both);
    forall x: nat | x < spec.repetitions ensures x in Sorted(both) {
      SortedIsComplete(both, x);
    }
    SortedBelow(Sorted(both), spec.repetitions);
  }

  /** Gap number r is the gap between the one record of each arm for repetition r. */
  lemma GapOfRepetition(
    spec: ExperimentSpec, records: seq<RunRecord>, a: Artifact, small: ArmSpec, large: ArmSpec, r: nat)
    returns (i: nat, j: nat)
    requires Loaded(spec) && Completed(spec, records) && Admits(records, spec, a) && a.complete
    requires small in spec.arms && large in spec.arms && r < spec.repetitions
    ensures i < |a.records| && IsFor(a.records[i], small.name, r)
    ensures j < |a.records| && IsFor(a.records[j], large.name, r)
    ensures forall k :: 0 <= k < |a.records| && IsFor(a.records[k], small.name, r) ==> k == i
    ensures forall k :: 0 <= k < |a.records| && IsFor(a.records[k], large.name, r) ==> k == j
    ensures
      var gaps := Gaps(Throughputs(a.records, small.name), Throughputs(a.records, large.name));
      var s, l := a.records[i].runtime.decodeTps, a.records[j].runtime.decodeTps;
      r < |gaps| && s.Some? && l.Some? && s.value != 0.0 && gaps[r] == Gap(s.value, l.value)
  {
    i := OneThroughput(spec, records, a, small, r);
    j := OneThroughput(spec, records, a, large, r);
    EndToEndPairing(spec, records, a, small, large);
  }

  lemma {:induction false} SelectedIsMeasured(records: seq<RunRecord>, flags: seq<bool>, r: RunRecord)
    requires |flags| == |records| && r in Select(records, flags)
    ensures r in Measured(records)
  {
    var n := |records| - 1;
    if r in Select(records[..n], flags[..n]) {
      SelectedIsMeasured(records[..n], flags[..n], r);
    }
  }

  lemma AdmittedIsMeasured(records: seq<RunRecord>, spec: ExperimentSpec, a: Artifact, r: RunRecord) returns (i: nat)
    requires Admits(records, spec, a) && r in a.records
    ensures i < |Measured(records)| && Measured(records)[i] == r
  {
    SelectedIsMeasured(records, Flags(records, a.decisions), r);
    i :| i < |Measured(records)| && Measured(records)[i] == r;
  }

  lemma HashesAreThere(r: RunRecord, spec: ExperimentSpec)
    requires Admissible(r, spec)
    ensures spec.requireOutputParity ==> r.runtime.outputSha256.Some?
    ensures spec.requireTokenIdParity ==> r.runtime.tokenIdsSha256.Some?
  {
    assert !Fails(r, spec, OutputHashMissing) && !Fails(r, spec, TokenHashMissing);
  }

  /** With output parity required, every admitted run produced the same output. */
  lemma OneOutput(spec: ExperimentSpec, records: seq<RunRecord>, a: Artifact, r: RunRecord, q: RunRecord)
    requires Completed(spec, records) && Admits(records, spec, a) && r in a.records && q in a.records
    ensures spec.requireOutputParity ==> r.runtime.outputSha256 == q.runtime.outputSha256
    ensures spec.requireTokenIdParity ==> r.runtime.tokenIdsSha256 == q.runtime.tokenIdsSha256
  {
    AdmittedIsAdmissible(records, spec, a, r);
    AdmittedIsAdmissible(records, spec, a, q);
    HashesAreThere(r, spec);
    HashesAreThere(q, spec);
    var i := AdmittedIsMeasured(records, spec, a, r);
    var j := AdmittedIsMeasured(records, spec, a, q);
    Agreement(OutputHashes(Measured(records)), i, j);
    Agreement(TokenHashes(Measured(records)), i, j);
  }

  lemma Agreement(hashes: seq<Option<string>>, i: nat, j: nat)
    requires i < |hashes| && j < |hashes|
    ensures !Disagree(hashes) && hashes[i].Some? && hashes[j].Some? ==> hashes[i] == hashes[j]
  {
  }
}

/** The balanced schedule: every arm once a round, every other round in reverse. */
module Schedule {
  import opened Schema

  datatype Turn = Turn(arm: ArmSpec, repetition: nat, warmup: bool)

  function Reversed(arms: seq<ArmSpec>): seq<ArmSpec> {
    seq(|arms|, i requires 0 <= i < |arms| => arms[|arms| - 1 - i])
  }

  function Round(arms: seq<ArmSpec>, repetition: nat, warmup: bool): seq<Turn> {
    var order := if repetition % 2 == 0 then arms else Reversed(arms);
    seq(|order|, i requires 0 <= i < |order| => Turn(order[i], repetition, warmup))
  }

  function Rounds(arms: seq<ArmSpec>, n: nat, warmup: bool): seq<Turn> {
    if n == 0 then [] else Rounds(arms, n - 1, warmup) + Round(arms, n - 1, warmup)
  }

  lemma OneMoreRound(warm: seq<Turn>, arms: seq<ArmSpec>, n: nat)
    ensures warm + Rounds(arms, n, false) + Round(arms, n, false) == warm + Rounds(arms, n + 1, false)
  {
  }

  method BalancedSchedule(spec: ExperimentSpec) returns (schedule: seq<Turn>)
    ensures schedule == Rounds(spec.arms, spec.warmups, true) + Rounds(spec.arms, spec.repetitions, false)
  {
    schedule := [];
    for warmup := 0 to spec.warmups
      invariant schedule == Rounds(spec.arms, warmup, true)
    {
      schedule := schedule + Round(spec.arms, warmup, true);
    }
    ghost var warm := schedule;
    for repetition := 0 to spec.repetitions
      invariant schedule == warm + Rounds(spec.arms, repetition, false)
    {
      schedule := schedule + Round(spec.arms, repetition, false);
      OneMoreRound(warm, spec.arms, repetition);
    }
  }

  lemma RoundsGrow(arms: seq<ArmSpec>, n: nat, warmup: bool, k: nat)
    ensures |Rounds(arms, n + 1, warmup)| == |Rounds(arms, n, warmup)| + |arms|
    ensures k < |Rounds(arms, n, warmup)| ==> Rounds(arms, n + 1, warmup)[k] == Rounds(arms, n, warmup)[k]
  {
  }

  lemma TurnInLastRound(arms: seq<ArmSpec>, n: nat, warmup: bool, i: nat)
    requires i < |arms|
    ensures |Rounds(arms, n, warmup)| + i < |Rounds(arms, n + 1, warmup)|
    ensures Rounds(arms, n + 1, warmup)[|Rounds(arms, n, warmup)| + i]
         == Turn(arms[if n % 2 == 0 then i else |arms| - 1 - i], n, warmup)
  {
    var earlier, last := Rounds(arms, n, warmup), Round(arms, n, warmup);
    assert (earlier + last)[|earlier| + i] == last[i];
  }

  lemma {:induction false} TurnInRound(arms: seq<ArmSpec>, n: nat, warmup: bool, r: nat, i: nat)
    requires r < n && i < |arms|
    ensures |Rounds(arms, r, warmup)| + i < |Rounds(arms, n, warmup)|
    ensures Rounds(arms, n, warmup)[|Rounds(arms, r, warmup)| + i]
         == Turn(arms[if r % 2 == 0 then i else |arms| - 1 - i], r, warmup)
  {
    if r < n - 1 {
      TurnInRound(arms, n - 1, warmup, r, i);
      RoundsGrow(arms, n - 1, warmup, |Rounds(arms, r, warmup)| + i);
    } else {
      TurnInLastRound(arms, r, warmup, i);
    }
  }

  /** Round r comes after r rounds of all arms, in the arms' order or, every other time, in
      reverse. */
  lemma TurnAt(arms: seq<ArmSpec>, n: nat, warmup: bool, r: nat, i: nat)
    requires r < n && i < |arms|
    ensures
      var turns := Rounds(arms, n, warmup);
      && |turns| == n * |arms| && 0 <= r * |arms| + i < |turns|
      && turns[r * |arms| + i] == Turn(arms[if r % 2 == 0 then i else |arms| - 1 - i], r, warmup)
  {
    RoundsLength(arms, r, warmup);
    RoundsLength(arms, n, warmup);
    TurnInRound(arms, n, warmup, r, i);
  }

  lemma {:induction false} RoundsLength(arms: seq<ArmSpec>, n: nat, warmup: bool)
    ensures |Rounds(arms, n, warmup)| == n * |arms|
  {
    if n > 0 {
      RoundsLength(arms, n - 1, warmup);
      assert n * |arms| == (n - 1) * |arms| + |arms|;
    }
  }

  lemma {:induction false} RoundsAreOfOneKind(arms: seq<ArmSpec>, n: nat, warmup: bool)
    ensures forall i :: 0 <= i < |Rounds(arms, n, warmup)| ==> Rounds(arms, n, warmup)[i].warmup == warmup
  {
    if n > 0 {
      RoundsAreOfOneKind(arms, n - 1, warmup);
    }
  }

  /** The warmup turns come first, and all rounds are full. */
  lemma ScheduleLength(spec: ExperimentSpec)
    ensures
      var schedule := Rounds(spec.arms, spec.warmups, true) + Rounds(spec.arms, spec.repetitions, false);
      && |schedule| == spec.warmups * |spec.arms| + spec.repetitions * |spec.arms|
      && forall i :: 0 <= i < |schedule| ==> (schedule[i].warmup <==> i < spec.warmups * |spec.arms|)
  {
    RoundsLength(spec.arms, spec.warmups, true);
    RoundsLength(spec.arms, spec.repetitions, false);
    RoundsAreOfOneKind(spec.arms, spec.warmups, true);
    RoundsAreOfOneKind(spec.arms, spec.repetitions, false);
  }

  ghost predicate DistinctArms(arms: seq<ArmSpec>) {
    forall i, j :: 0 <= i < j < |arms| ==> arms[i] != arms[j]
  }

  ghost predicate DistinctTurns(turns: seq<Turn>) {
    forall i, j :: 0 <= i < j < |turns| ==> turns[i] != turns[j]
  }

  lemma RoundHasEachArm(arms: seq<ArmSpec>, r: nat, warmup: bool, t: Turn)
    ensures t in Round(arms, r, warmup) <==> t.arm in arms && t.repetition == r && t.warmup == warmup
  {
    if t.arm in arms && t.repetition == r && t.warmup == warmup {
      var i :| 0 <= i < |arms| && arms[i] == t.arm;
      assert Round(arms, r, warmup)[if r % 2 == 0 then i else |arms| - 1 - i] == t;
    }
  }

  lemma InSum(a: seq<Turn>, b: seq<Turn>, t: Turn)
    ensures t in a + b <==> t in a || t in b
  {
  }

  /** Every arm has every turn ... */
  lemma {:induction false} EveryTurnIsScheduled(arms: seq<ArmSpec>, n: nat, warmup: bool, t: Turn)
    ensures t in Rounds(arms, n, warmup) <==> t.arm in arms && t.repetition < n && t.warmup == warmup
  {
    if n > 0 {
      var before, round := Rounds(arms, n - 1, warmup), Round(arms, n - 1, warmup);
      EveryTurnIsScheduled(arms, n - 1, warmup, t);
      RoundHasEachArm(arms, n - 1, warmup, t);
      InSum(before, round, t);
    }
  }

  lemma RoundIsDistinct(arms: seq<ArmSpec>, r: nat, warmup: bool)
    requires DistinctArms(arms)
    ensures DistinctTurns(Round(arms, r, warmup))
  {
    var turns, n := Round(arms, r, warmup), |arms|;
    forall i, j | 0 <= i < j < |turns| ensures turns[i] != turns[j] {
      assert arms[n - 1 - j] != arms[n - 1 - i];
    }
  }

  lemma DistinctSum(a: seq<Turn>, b: seq<Turn>, r: nat)
    requires DistinctTurns(a) && DistinctTurns(b)
    requires forall i :: 0 <= i < |a| ==> a[i].repetition < r
    requires forall i :: 0 <= i < |b| ==> b[i].repetition == r
    ensures DistinctTurns(a + b)
  {
  }

  /** ... and has it once. */
  lemma {:induction false} NoTurnTwice(arms: seq<ArmSpec>, n: nat, warmup: bool)
    requires DistinctArms(arms)
    ensures DistinctTurns(Rounds(arms, n, warmup))
  {
    if n > 0 {
      var before := Rounds(arms, n - 1, warmup);
      NoTurnTwice(arms, n - 1, warmup);
      RoundIsDistinct(arms, n - 1, warmup);
      forall i | 0 <= i < |before| ensures before[i].repetition < n - 1 {
        assert before[i] in before;
        EveryTurnIsScheduled(arms, n - 1, warmup, before[i]);
      }
      DistinctSum(before, Round(arms, n - 1, warmup), n - 1);
    }
  }

  // ----- Balance -------------------------------------------------------------------

  /** Where in round r arm number i of n runs. */
  function Place(n: nat, i: nat, r: nat): nat
    requires i < n
  {
    if r % 2 == 0 then i else n - 1 - i
  }

  lemma PlaceIsWhereItRuns(arms: seq<ArmSpec>, i: nat, r: nat, warmup: bool)
    requires i < |arms|
    ensures Place(|arms|, i, r) < |Round(arms, r, warmup)|
    ensures Round(arms, r, warmup)[Place(|arms|, i, r)] == Turn(arms[i], r, warmup)
  {
  }

  function TotalPlace(n: nat, i: nat, rounds: nat): nat
    requires i < n
  {
    if rounds == 0 then 0 else TotalPlace(n, i, rounds - 1) + Place(n, i, rounds - 1)
  }

  /** After an even number of rounds every arm has waited equally long; after an odd number,
      arm i is behind the fairest total by its own place, so by less than n. */
  lemma {:induction false} PlacesBalance(n: nat, i: nat, rounds: nat)
    requires i < n
    ensures TotalPlace(n, i, rounds) == rounds / 2 * (n - 1) + if rounds % 2 == 0 then 0 else i
  {
    if rounds >= 2 {
      PlacesBalance(n, i, rounds - 2);
      assert TotalPlace(n, i, rounds) == TotalPlace(n, i, rounds - 2) + (n - 1);
      OneMoreHalf(rounds / 2 - 1, n - 1);
    } else if rounds == 1 {
      assert TotalPlace(n, i, 0) == 0;
    }
  }

  lemma OneMoreHalf(halves: nat, m: nat)
    ensures (halves + 1) * m == halves * m + m
  {
  }

  lemma TotalsNeverDrift(n: nat, i: nat, j: nat, rounds: nat)
    requires i < n && j < n
    ensures rounds % 2 == 0 ==> TotalPlace(n, i, rounds) == TotalPlace(n, j, rounds)
    ensures rounds % 2 == 1 ==> TotalPlace(n, i, rounds) - TotalPlace(n, j, rounds) == i - j
  {
    PlacesBalance(n, i, rounds);
    PlacesBalance(n, j, rounds);
  }
}

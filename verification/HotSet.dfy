/** The ranking of occupied slots and the choice of the hot set at a safe point. */
module HotSet {
  import opened Collections
  import opened ExpertCache

  function Heat(c: Cache, s: nat): int
    requires s < |c.expert|
  {
    if 0 <= c.expert[s] < |c.useCount| then c.useCount[c.expert[s]] else 0
  }

  /** isHotterSlot: use count, then recency, then the lower index. */
  predicate Hotter(c: Cache, a: nat, b: nat)
    requires a < |c.expert| == |c.lastUse| && b < |c.expert|
  {
    if Heat(c, a) != Heat(c, b) then Heat(c, a) > Heat(c, b)
    else if c.lastUse[a] != c.lastUse[b] then c.lastUse[a] > c.lastUse[b]
    else a < b
  }

  lemma HotterIsStrictTotalOrder(c: Cache, a: nat, b: nat, d: nat)
    requires a < |c.expert| == |c.lastUse| && b < |c.expert| && d < |c.expert|
    ensures !Hotter(c, a, a)
    ensures a != b ==> (Hotter(c, a, b) <==> !Hotter(c, b, a))
    ensures Hotter(c, a, b) && Hotter(c, b, d) ==> Hotter(c, a, d)
  {
  }

  // ----- Occupied slots ----------------------------------------------------------

  /** The occupied slots below n, in ascending order. */
  function Occupied(c: Cache, n: nat): (xs: seq<nat>)
    requires n <= |c.expert|
    ensures forall s: nat :: s in xs <==> s < n && c.expert[s] >= 0
    ensures forall i :: 0 <= i < |xs| ==> xs[i] < n
    ensures forall i, j :: 0 <= i < j < |xs| ==> xs[i] < xs[j]
  {
    if n == 0 then []
    else if c.expert[n - 1] >= 0 then Occupied(c, n - 1) + [n - 1]
    else Occupied(c, n - 1)
  }

  ghost function OccupiedSet(c: Cache): set<nat> {
    set s: nat | s < |c.expert| && c.expert[s] >= 0
  }

  ghost function SetOf(xs: seq<nat>): set<nat> {
    set x | x in xs
  }

  ghost predicate Distinct(xs: seq<nat>) {
    forall i, j :: 0 <= i < j < |xs| ==> xs[i] != xs[j]
  }

  lemma {:induction false} DistinctCount(xs: seq<nat>)
    requires Distinct(xs)
    ensures |SetOf(xs)| == |xs|
  {
    if xs != [] {
      DistinctCount(xs[1..]);
      assert SetOf(xs) == {xs[0]} + SetOf(xs[1..]);
      assert xs[0] !in xs[1..];
    }
  }

  lemma OccupiedIsDistinctAndComplete(c: Cache)
    ensures Distinct(Occupied(c, |c.expert|))
    ensures SetOf(Occupied(c, |c.expert|)) == OccupiedSet(c)
  {
  }

  // ----- Sorting -----------------------------------------------------------------

  predicate InRange(c: Cache, xs: seq<nat>) {
    && |c.expert| == |c.lastUse|
    && forall i :: 0 <= i < |xs| ==> xs[i] < |c.expert|
  }

  ghost predicate Ranked(c: Cache, xs: seq<nat>)
    requires InRange(c, xs)
  {
    forall i, j :: 0 <= i < j < |xs| ==> Hotter(c, xs[i], xs[j])
  }

  function Insert(c: Cache, s: nat, xs: seq<nat>): (ys: seq<nat>)
    requires s < |c.expert| && InRange(c, xs)
    ensures multiset(ys) == multiset(xs) + multiset{s}
    ensures forall x :: x in ys <==> x == s || x in xs
    ensures InRange(c, ys)
  {
    if xs == [] || Hotter(c, s, xs[0]) then
      [s] + xs
    else
      assert xs == [xs[0]] + xs[1..];
      [xs[0]] + Insert(c, s, xs[1..])
  }

  lemma {:induction false} InsertKeepsRanked(c: Cache, s: nat, xs: seq<nat>)
    requires s < |c.expert| && InRange(c, xs) && Ranked(c, xs) && s !in xs
    ensures Ranked(c, Insert(c, s, xs))
  {
    if xs != [] && !Hotter(c, s, xs[0]) {
      var rest := Insert(c, s, xs[1..]);
      InsertKeepsRanked(c, s, xs[1..]);
      forall j | 0 <= j < |rest| ensures Hotter(c, xs[0], rest[j]) {
        assert rest[j] in rest;
        assert rest[j] == s || rest[j] in xs[1..];
      }
    }
  }

  /** What the library sort produces for this order. */
  function Rank(c: Cache, xs: seq<nat>): (ys: seq<nat>)
    requires InRange(c, xs)
    ensures multiset(ys) == multiset(xs)
    ensures forall x :: x in ys <==> x in xs
    ensures InRange(c, ys) && |ys| == |xs|
  {
    if xs == [] then [] else
      assert xs == [xs[0]] + xs[1..];
      var ys := Insert(c, xs[0], Rank(c, xs[1..]));
      assert |multiset(ys)| == |multiset(xs)|;
      ys
  }

  lemma {:induction false} RankIsRanked(c: Cache, xs: seq<nat>)
    requires InRange(c, xs) && Distinct(xs)
    ensures Ranked(c, Rank(c, xs))
  {
    if xs != [] {
      RankIsRanked(c, xs[1..]);
      InsertKeepsRanked(c, xs[0], Rank(c, xs[1..]));
    }
  }

  lemma {:induction false} RankedIsDistinct(c: Cache, xs: seq<nat>)
    requires InRange(c, xs) && Ranked(c, xs)
    ensures Distinct(xs)
  {
    forall i, j | 0 <= i < j < |xs| ensures xs[i] != xs[j] {
      assert Hotter(c, xs[i], xs[j]);
    }
  }

  // ----- The hot set -------------------------------------------------------------

  function KeepCount(keepingHotSlots: int, occupied: nat): (n: nat) {
    var asked := if keepingHotSlots < 0 then 0 else keepingHotSlots;
    if asked < occupied then asked else occupied
  }

  function HotSlots(c: Cache, k: int): seq<nat>
    requires |c.expert| == |c.lastUse|
  {
    var ranked := Rank(c, Occupied(c, |c.expert|));
    ranked[..KeepCount(k, |ranked|)]
  }

  /** h is a set of occupied slots, and each beats every occupied slot outside it. */
  ghost predicate Dominates(c: Cache, h: set<nat>)
    requires |c.expert| == |c.lastUse|
  {
    && h <= OccupiedSet(c)
    && forall a, b :: a in h && b in OccupiedSet(c) - h ==> Hotter(c, a, b)
  }

  lemma PrefixOutranksRest(c: Cache, ranked: seq<nat>, n: nat, a: nat, b: nat)
    requires InRange(c, ranked) && Ranked(c, ranked) && n <= |ranked|
    requires a in ranked[..n] && b in ranked && b !in ranked[..n]
    ensures a < |c.expert| && b < |c.expert| && Hotter(c, a, b)
  {
    var i :| 0 <= i < n && ranked[..n][i] == a;
    var j :| 0 <= j < |ranked| && ranked[j] == b;
    assert forall m :: 0 <= m < n ==> ranked[..n][m] == ranked[m] && ranked[m] in ranked[..n];
  }

  /** hot is the hot set for a target of k: the right size, and beating all the rest. */
  ghost predicate IsHotSet(c: Cache, k: int, hot: set<nat>)
    requires |c.expert| == |c.lastUse|
  {
    && |hot| == KeepCount(k, |OccupiedSet(c)|)
    && Dominates(c, hot)
  }

  /** Sorting the occupied slots by heat and keeping a prefix yields the hot set. */
  lemma HotSlotsAreTheHotSet(c: Cache, k: int)
    requires |c.expert| == |c.lastUse|
    ensures IsHotSet(c, k, SetOf(HotSlots(c, k)))
    ensures Distinct(HotSlots(c, k))
  {
    var occupied := Occupied(c, |c.expert|);
    var ranked := Rank(c, occupied);
    OccupiedIsDistinctAndComplete(c);
    RankIsRanked(c, occupied);
    RankedIsDistinct(c, ranked);
    DistinctCount(ranked);
    assert SetOf(ranked) == OccupiedSet(c);
    DistinctCount(HotSlots(c, k));
    var hot := SetOf(HotSlots(c, k));
    forall a, b | a in hot && b in OccupiedSet(c) - hot ensures Hotter(c, a, b) {
      PrefixOutranksRest(c, ranked, KeepCount(k, |ranked|), a, b);
    }
  }

  lemma Outranks(c: Cache, h: set<nat>, a: nat, b: nat)
    requires |c.expert| == |c.lastUse|
    requires Dominates(c, h) && a in h && b in OccupiedSet(c) && b !in h
    ensures Hotter(c, a, b) && !Hotter(c, b, a)
  {
    assert b in OccupiedSet(c) - h;
  }

  /** The sort is immaterial: there is only one hot set. */
  lemma HotSetIsUnique(c: Cache, k: int, h: set<nat>, g: set<nat>)
    requires |c.expert| == |c.lastUse|
    requires IsHotSet(c, k, h) && IsHotSet(c, k, g)
    ensures h == g
  {
    if !(h <= g) {
      var a :| a in h && a !in g;
      forall b | b in g ensures b in h {
        if b !in h { Outranks(c, h, a, b); }
      }
      ProperSubsetIsSmaller(g, h);
    } else if h != g {
      ProperSubsetIsSmaller(h, g);
    }
  }

  /** If only hot slots lose their contents, every surviving hot slot stays hot. */
  lemma SurvivorsStayHot(c: Cache, d: Cache, k: int, h: set<nat>, g: set<nat>, lost: set<nat>)
    requires |c.expert| == |c.lastUse| == |d.expert| == |d.lastUse|
    requires c.useCount == d.useCount
    requires IsHotSet(c, k, h) && IsHotSet(d, k, g)
    requires lost <= h && OccupiedSet(d) == OccupiedSet(c) - lost
    requires forall s :: s in OccupiedSet(d) ==> d.expert[s] == c.expert[s] && d.lastUse[s] == c.lastUse[s]
    ensures h - lost <= g
  {
    forall a | a in h - lost ensures a in g {
      if a !in g {
        forall b | b in g ensures b in h - {a} {
          Outranks(d, g, b, a);
          if b !in h { Outranks(c, h, a, b); }
        }
        SubsetIsNoLarger(g, h - {a});
        ProperSubsetIsSmaller(g, OccupiedSet(d));
      }
    }
  }

  // ----- What being hot means ---------------------------------------------------------

  /** The expert in slot a was used more often than the one in b; as often, and slot a later; or
      the same in both, and a is the lower slot. */
  ghost predicate UsedMore(c: Cache, a: nat, b: nat)
    requires a < |c.expert| == |c.lastUse| && b < |c.expert|
  {
    && 0 <= c.expert[a] < |c.useCount| && 0 <= c.expert[b] < |c.useCount|
    && c.useCount[c.expert[a]] >= c.useCount[c.expert[b]]
    && (c.useCount[c.expert[a]] == c.useCount[c.expert[b]] ==> c.lastUse[a] >= c.lastUse[b])
    && (c.useCount[c.expert[a]] == c.useCount[c.expert[b]] && c.lastUse[a] == c.lastUse[b] ==> a < b)
  }

  /** hot are occupied slots, as many as asked for if there are so many, each used more than
      every other occupied slot. */
  ghost predicate UsedMost(c: Cache, k: int, hot: set<nat>)
    requires |c.expert| == |c.lastUse|
  {
    && (forall s :: s in hot ==> s < |c.expert| && c.expert[s] >= 0)
    && |hot| <= (if k < 0 then 0 else k)
    && (forall b: nat :: b < |c.expert| && c.expert[b] >= 0 && b !in hot ==>
          |hot| == (if k < 0 then 0 else k) && forall a :: a in hot ==> UsedMore(c, a, b))
  }

  /** The hot set is what use counts, recency and index say. */
  lemma HotSetIsUsedMost(cfg: Config, c: Cache, k: int, hot: set<nat>)
    requires Sized(cfg, c) && Coupled(cfg, c) && IsHotSet(c, k, hot)
    ensures UsedMost(c, k, hot)
  {
    forall b: nat | b < |c.expert| && c.expert[b] >= 0 && b !in hot
      ensures |hot| == (if k < 0 then 0 else k) && forall a :: a in hot ==> UsedMore(c, a, b)
    {
      ProperSubsetIsSmaller(hot, OccupiedSet(c));
      forall a | a in hot ensures UsedMore(c, a, b) {
        Outranks(c, hot, a, b);
        assert CoupledSlot(cfg, c, a) && CoupledSlot(cfg, c, b);
      }
    }
  }
}

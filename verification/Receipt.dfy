/** The residency receipt: the line the runtime prints, and the parser that reads it back.

    The pattern is a list of literals, runs of white space and runs of digits. What it matches
    is said without an order of search (`Splits`); since each run is followed by something
    that cannot belong to it, matching greedily finds that, and there is nothing else to find
    (`GreedyFindsTheMatch`). */
module Receipt {
  import opened Options
  import opened Seals
  import opened ExpertCache

  // ----- Numbers -------------------------------------------------------------------

  predicate IsDigit(c: char) {
    '0' <= c <= '9'
  }

  /** ASCII white space. */
  predicate IsSpace(c: char): (space: bool)
    ensures space <==> c in " \t\n\U{000B}\U{000C}\r\U{001C}\U{001D}\U{001E}\U{001F}"
  {
    c == ' ' || 9 <= c as int <= 13 || 28 <= c as int <= 31
  }

  ghost predicate AllDigits(s: string) {
    forall i :: 0 <= i < |s| ==> IsDigit(s[i])
  }

  function Decimal(n: nat): (s: string)
    ensures s != "" && AllDigits(s)
  {
    var last := [(('0' as int) + n % 10) as char];
    if n < 10 then last else Decimal(n / 10) + last
  }

  function DigitValue(c: char): (v: nat)
    requires IsDigit(c)
    ensures v < 10
  {
    c as int - '0' as int
  }

  function Value(s: string): nat
    requires AllDigits(s)
  {
    if s == "" then 0 else 10 * Value(s[..|s| - 1]) + DigitValue(s[|s| - 1])
  }

  lemma {:induction false} DecimalRoundTrip(n: nat)
    ensures Value(Decimal(n)) == n
  {
    var s := Decimal(n);
    if n >= 10 {
      DecimalRoundTrip(n / 10);
      assert s[..|s| - 1] == Decimal(n / 10);
    } else {
      assert s[..|s| - 1] == "";
    }
  }

  // ----- The pattern ----------------------------------------------------------------

  datatype Item = Lit(text: string) | Spaces | Digits

  datatype Match = Match(values: seq<nat>, length: nat)

  /** c can belong to a run of this item. */
  predicate Fits(item: Item, c: char) {
    (item.Spaces? && IsSpace(c)) || (item.Digits? && IsDigit(c))
  }

  function Run(item: Item, s: string): (n: nat)
    ensures n <= |s| && (forall k :: 0 <= k < n ==> Fits(item, s[k])) && (n < |s| ==> !Fits(item, s[n]))
  {
    if s != "" && Fits(item, s[0]) then 1 + Run(item, s[1..]) else 0
  }

  /** How much of the start of s one item takes. */
  function Take(item: Item, s: string): (n: Option<nat>)
    ensures n.Some? ==> n.value <= |s|
    ensures n.Some? && item.Digits? ==> AllDigits(s[..n.value])
  {
    if item.Lit? then
      if item.text <= s then Some(|item.text|) else None
    else
      var n := Run(item, s);
      if n == 0 then None else Some(n)
  }

  /** The pattern against the start of s. */
  function MatchStart(items: seq<Item>, s: string): (m: Option<Match>)
    ensures m.Some? ==> m.value.length <= |s|
    decreases |items|
  {
    if items == [] then Some(Match([], 0))
    else
      var n := Take(items[0], s);
      if n.None? then None
      else
        var rest := MatchStart(items[1..], s[n.value..]);
        if rest.None? then None
        else Some(Prepend(items[0], s[..n.value], rest.value))
  }

  function Prepend(item: Item, taken: string, rest: Match): Match
    requires item.Digits? ==> AllDigits(taken)
  {
    Match(if item.Digits? then [Value(taken)] + rest.values else rest.values, |taken| + rest.length)
  }

  function PrintItem(item: Item, values: seq<nat>): string {
    match item
    case Lit(text) => text
    case Spaces => " "
    case Digits => if values == [] then "" else Decimal(values[0])
  }

  function Rest(item: Item, values: seq<nat>): seq<nat> {
    if item.Digits? && values != [] then values[1..] else values
  }

  /** What the pattern prints, with these values for its digits. */
  function Print(items: seq<Item>, values: seq<nat>): string {
    if items == [] then "" else PrintItem(items[0], values) + Print(items[1..], Rest(items[0], values))
  }

  function DigitsIn(items: seq<Item>): nat {
    if items == [] then 0 else (if items[0].Digits? then 1 else 0) + DigitsIn(items[1..])
  }

  /** No run can swallow what follows it. */
  ghost predicate Tidy(items: seq<Item>) {
    && (forall i :: 0 <= i < |items| && items[i].Lit? ==>
          items[i].text != "" && !IsSpace(items[i].text[0]) && !IsDigit(items[i].text[0]))
    && (forall i :: 0 <= i < |items| && items[i].Spaces? ==> i + 1 < |items| && items[i + 1].Lit?)
    && (forall i :: 0 <= i < |items| && items[i].Digits? ==> i + 1 < |items| && !items[i + 1].Digits?)
  }

  lemma {:induction false} RunIs(item: Item, s: string, n: nat)
    requires n <= |s| && (forall k :: 0 <= k < n ==> Fits(item, s[k])) && (n < |s| ==> !Fits(item, s[n]))
    ensures Run(item, s) == n
  {
    if n > 0 {
      assert Fits(item, s[0]);
      RunIs(item, s[1..], n - 1);
    }
  }

  /** What follows an item in a tidy pattern cannot be taken for part of it. */
  lemma NextDoesNotFit(items: seq<Item>, values: seq<nat>)
    requires Tidy(items) && items != [] && !items[0].Lit? && |values| >= DigitsIn(items)
    ensures
      var next := Print(items[1..], Rest(items[0], values));
      next != "" && !Fits(items[0], next[0])
  {
    var later, left := items[1..], Rest(items[0], values);
    assert later[0] == items[1];
    assert Print(later, left) == PrintItem(later[0], left) + Print(later[1..], Rest(later[0], left));
  }

  lemma TakePrinted(item: Item, values: seq<nat>, next: string, s: string)
    requires item.Digits? ==> values != []
    requires item.Lit? || (next != "" && !Fits(item, next[0]))
    requires PrintItem(item, values) + next <= s
    ensures Take(item, s) == Some(|PrintItem(item, values)|)
    ensures s[..|PrintItem(item, values)|] == PrintItem(item, values)
    ensures next <= s[|PrintItem(item, values)|..]
  {
    var p := PrintItem(item, values);
    assert s[..|p + next|] == p + next;
    assert forall k :: 0 <= k < |p + next| ==> s[k] == (p + next)[k];
    if !item.Lit? {
      RunIs(item, s, |p|);
    }
  }

  lemma PrependValue(item: Item, taken: string, values: seq<nat>, later: nat)
    requires item.Digits? ==> values != [] && AllDigits(taken) && Value(taken) == values[0]
    ensures Prepend(item, taken, Match(Rest(item, values), later)) == Match(values, |taken| + later)
  {
    assert values != [] ==> [values[0]] + values[1..] == values;
  }

  lemma PrependPrinted(item: Item, values: seq<nat>, taken: string, later: nat)
    requires taken == PrintItem(item, values) && (item.Digits? ==> values != [])
    ensures item.Digits? ==> AllDigits(taken)
    ensures Prepend(item, taken, Match(Rest(item, values), later)) == Match(values, |taken| + later)
  {
    if item.Digits? {
      DecimalRoundTrip(values[0]);
    }
    PrependValue(item, taken, values, later);
  }

  lemma PrintFirst(items: seq<Item>, values: seq<nat>)
    requires items != [] && |values| == DigitsIn(items)
    ensures items[0].Digits? ==> values != []
    ensures |Rest(items[0], values)| == DigitsIn(items[1..])
    ensures Print(items, values) == PrintItem(items[0], values) + Print(items[1..], Rest(items[0], values))
  {
  }

  lemma HeadIsTaken(items: seq<Item>, values: seq<nat>, s: string)
    requires Tidy(items) && items != [] && |values| == DigitsIn(items) && Print(items, values) <= s
    ensures
      var p, left := PrintItem(items[0], values), Rest(items[0], values);
      && Take(items[0], s) == Some(|p|) && s[..|p|] == p && (items[0].Digits? ==> values != [])
      && |left| == DigitsIn(items[1..]) && Print(items[1..], left) <= s[|p|..]
      && |Print(items, values)| == |p| + |Print(items[1..], left)|
  {
    PrintFirst(items, values);
    if !items[0].Lit? { NextDoesNotFit(items, values); }
    TakePrinted(items[0], values, Print(items[1..], Rest(items[0], values)), s);
  }

  lemma MatchFirst(items: seq<Item>, s: string, n: nat, rest: Match)
    requires items != [] && Take(items[0], s) == Some(n)
    requires MatchStart(items[1..], s[n..]) == Some(rest)
    ensures MatchStart(items, s) == Some(Prepend(items[0], s[..n], rest))
  {
  }

  /** What a tidy pattern prints, it matches, and reads back the same values. */
  lemma {:induction false} PrintMatches(items: seq<Item>, values: seq<nat>, s: string)
    requires Tidy(items) && |values| == DigitsIn(items) && Print(items, values) <= s
    ensures MatchStart(items, s) == Some(Match(values, |Print(items, values)|))
    decreases |items|
  {
    if items != [] {
      HeadIsTaken(items, values, s);
      TailIsTidy(items);
      var p, left := PrintItem(items[0], values), Rest(items[0], values);
      PrintMatches(items[1..], left, s[|p|..]);
      var later := |Print(items[1..], left)|;
      MatchFirst(items, s, |p|, Match(left, later));
      PrependPrinted(items[0], values, p, later);
    }
  }

  lemma TailIsTidy(items: seq<Item>)
    requires Tidy(items) && items != []
    ensures Tidy(items[1..])
  {
  }

  // ----- What the pattern means ------------------------------------------------------

  /** t is text for one item. */
  ghost predicate Spells(item: Item, t: string) {
    match item
    case Lit(text) => t == text
    case Spaces => t != "" && forall k :: 0 <= k < |t| ==> IsSpace(t[k])
    case Digits => t != "" && AllDigits(t)
  }

  /** w can be cut into one part for each item, the digits reading as these values. */
  ghost predicate Splits(items: seq<Item>, w: string, values: seq<nat>)
    decreases |items|
  {
    if items == [] then w == "" && values == []
    else exists n: nat :: n <= |w| && SplitsAt(items, w, n, values)
  }

  ghost predicate SplitsAt(items: seq<Item>, w: string, n: nat, values: seq<nat>)
    requires items != [] && n <= |w|
    decreases |items|, 0
  {
    && Spells(items[0], w[..n])
    && (items[0].Digits? ==> values != [] && Value(w[..n]) == values[0])
    && Splits(items[1..], w[n..], Rest(items[0], values))
  }

  lemma NextIsOther(items: seq<Item>, t: string, values: seq<nat>)
    requires Tidy(items) && items != [] && !items[0].Lit? && Splits(items[1..], t, values)
    ensures t != "" && !Fits(items[0], t[0])
  {
    var later := items[1..];
    assert later[0] == items[1];
    var n: nat :| n <= |t| && SplitsAt(later, t, n, values);
    assert t[..n] != "" && t[..n][0] == t[0];
  }

  lemma TakeSpells(item: Item, s: string)
    requires Take(item, s).Some?
    ensures Spells(item, s[..Take(item, s).value])
  {
  }

  lemma SpelledIsTaken(item: Item, s: string, n: nat)
    requires n <= |s| && Spells(item, s[..n])
    requires item.Lit? || (n < |s| && !Fits(item, s[n]))
    ensures Take(item, s) == Some(n)
  {
    if !item.Lit? {
      assert forall k :: 0 <= k < n ==> s[k] == s[..n][k];
      RunIs(item, s, n);
    }
  }

  lemma MatchIsSplit(items: seq<Item>, s: string)
    requires MatchStart(items, s).Some?
    ensures
      var m := MatchStart(items, s).value;
      Splits(items, s[..m.length], m.values)
    decreases |items|
  {
    if items != [] {
      var m, n := MatchStart(items, s).value, Take(items[0], s).value;
      var rest := MatchStart(items[1..], s[n..]).value;
      MatchIsSplit(items[1..], s[n..]);
      TakeSpells(items[0], s);
      var w := s[..m.length];
      assert w[..n] == s[..n] && w[n..] == s[n..][..rest.length];
      assert Rest(items[0], m.values) == rest.values;
      assert SplitsAt(items, w, n, m.values);
    }
  }

  /** The first k characters of s fit the pattern with these values; sealed. */
  ghost predicate Cut(items: seq<Item>, s: string, k: nat, values: seq<nat>) {
    forall key {:trigger Unsealed(key)} :: Unsealed(key) ==> k <= |s| && Splits(items, s[..k], values)
  }

  /** The matcher takes the first k characters of s with these values; sealed. */
  ghost predicate Taken(items: seq<Item>, s: string, k: nat, values: seq<nat>) {
    forall key {:trigger Unsealed(key)} :: Unsealed(key) ==> MatchStart(items, s) == Some(Match(values, k))
  }

  lemma SplitHead(items: seq<Item>, s: string, k: nat, values: seq<nat>) returns (n: nat)
    requires Tidy(items) && items != [] && k <= |s| && Splits(items, s[..k], values)
    ensures n <= k && Take(items[0], s) == Some(n) && Splits(items[1..], s[n..][..k - n], Rest(items[0], values))
    ensures items[0].Digits? ==> values != [] && AllDigits(s[..n]) && Value(s[..n]) == values[0]
  {
    var w := s[..k];
    n :| n <= |w| && SplitsAt(items, w, n, values);
    assert w[..n] == s[..n] && w[n..] == s[n..][..k - n];
    if !items[0].Lit? {
      NextIsOther(items, w[n..], Rest(items[0], values));
    }
    SpelledIsTaken(items[0], s, n);
  }

  lemma CutHead(items: seq<Item>, s: string, k: nat, values: seq<nat>) returns (n: nat)
    requires Tidy(items) && items != [] && Cut(items, s, k, values)
    ensures n <= k <= |s| && Take(items[0], s) == Some(n)
    ensures Cut(items[1..], s[n..], k - n, Rest(items[0], values))
    ensures items[0].Digits? ==> values != [] && AllDigits(s[..n]) && Value(s[..n]) == values[0]
  {
    assert Unsealed(0);
    n := SplitHead(items, s, k, values);
  }

  lemma CutOfNothing(s: string, k: nat, values: seq<nat>)
    requires Cut([], s, k, values)
    ensures Taken([], s, k, values)
  {
    assert Unsealed(0);
    assert |s[..k]| == 0;
  }

  lemma TakenFirst(items: seq<Item>, s: string, n: nat, values: seq<nat>, later: nat)
    requires items != [] && Take(items[0], s) == Some(n)
    requires items[0].Digits? ==> values != [] && AllDigits(s[..n]) && Value(s[..n]) == values[0]
    requires Taken(items[1..], s[n..], later, Rest(items[0], values))
    ensures Taken(items, s, n + later, values)
  {
    assert Unsealed(0);
    MatchFirst(items, s, n, Match(Rest(items[0], values), later));
    PrependValue(items[0], s[..n], values, later);
  }

  lemma {:induction false} CutIsTaken(items: seq<Item>, s: string, k: nat, values: seq<nat>)
    requires Tidy(items) && Cut(items, s, k, values)
    ensures Taken(items, s, k, values)
    decreases |items|
  {
    if items == [] {
      CutOfNothing(s, k, values);
    } else {
      TailIsTidy(items);
      var n := CutHead(items, s, k, values);
      CutIsTaken(items[1..], s[n..], k - n, Rest(items[0], values));
      TakenFirst(items, s, n, values, k - n);
    }
  }

  lemma SplitIsMatch(items: seq<Item>, s: string, k: nat, values: seq<nat>)
    requires Tidy(items) && k <= |s| && Splits(items, s[..k], values)
    ensures MatchStart(items, s) == Some(Match(values, k))
  {
    CutIsTaken(items, s, k, values);
    assert Unsealed(0);
  }

  /** For a tidy pattern, the greedy matcher's result is the one and only way in which any
      start of the text can be cut to fit it. */
  lemma GreedyFindsTheMatch(items: seq<Item>, s: string, k: nat, values: seq<nat>)
    requires Tidy(items) && k <= |s|
    ensures MatchStart(items, s) == Some(Match(values, k)) <==> Splits(items, s[..k], values)
  {
    if MatchStart(items, s) == Some(Match(values, k)) {
      MatchIsSplit(items, s);
    }
    if Splits(items, s[..k], values) {
      SplitIsMatch(items, s, k, values);
    }
  }

  // ----- Where a match can be -------------------------------------------------------

  lemma TakeIsLocal(item: Item, s: string, k: nat)
    requires k <= |s| && Take(item, s).Some? && Take(item, s).value <= k
    ensures Take(item, s[..k]) == Take(item, s)
  {
    if !item.Lit? {
      RunIs(item, s[..k], Run(item, s));
    }
  }

  /** A match depends only on the text it covers. */
  lemma {:induction false} MatchIsLocal(items: seq<Item>, s: string, k: nat)
    requires k <= |s| && MatchStart(items, s).Some? && MatchStart(items, s).value.length <= k
    ensures MatchStart(items, s[..k]) == MatchStart(items, s)
    decreases |items|
  {
    if items != [] {
      var n := Take(items[0], s).value;
      assert s[..k][n..] == s[n..][..k - n] && s[..k][..n] == s[..n];
      TakeIsLocal(items[0], s, k);
      assert Take(items[0], s[..k]) == Some(n);
      MatchIsLocal(items[1..], s[n..], k - n);
    }
  }

  ghost predicate NoOpening(items: seq<Item>) {
    forall i :: 0 <= i < |items| && items[i].Lit? ==> '[' !in items[i].text
  }

  lemma TakeHasNoOpening(item: Item, s: string)
    requires (item.Lit? ==> '[' !in item.text) && Take(item, s).Some?
    ensures '[' !in s[..Take(item, s).value]
  {
  }

  lemma NotInParts(c: char, s: string, n: nat, length: nat)
    requires n <= length <= |s| && c !in s[..n] && c !in s[n..][..length - n]
    ensures c !in s[..length]
  {
    forall k | 0 <= k < length ensures s[k] != c {
      if k < n {
        assert s[..n][k] == s[k];
      } else {
        assert s[n..][..length - n][k - n] == s[k];
      }
    }
  }

  lemma {:induction false} MatchHasNoOpening(items: seq<Item>, s: string)
    requires NoOpening(items) && MatchStart(items, s).Some?
    ensures '[' !in s[..MatchStart(items, s).value.length]
    decreases |items|
  {
    if items != [] {
      var n := Take(items[0], s).value;
      TakeHasNoOpening(items[0], s);
      MatchHasNoOpening(items[1..], s[n..]);
      NotInParts('[', s, n, MatchStart(items, s).value.length);
    }
  }

  lemma {:induction false} MatchEndsInLiteral(items: seq<Item>, s: string)
    requires items != [] && items[|items| - 1] == Lit("]") && MatchStart(items, s).Some?
    ensures
      var length := MatchStart(items, s).value.length;
      length > 0 && s[length - 1] == ']'
    decreases |items|
  {
    var n := Take(items[0], s).value;
    if |items| == 1 {
      assert items[1..] == [] && items[0] == Lit("]");
    } else {
      assert items[1..][|items| - 2] == Lit("]");
      MatchEndsInLiteral(items[1..], s[n..]);
    }
  }

  // ----- The receipt ----------------------------------------------------------------

  const HEAD := "[expert-residency"

  const NAMES := ["hot_slots=", "volatile=", "revalidate=", "retained=", "empty=", "discard=",
                  "invalidated_slots=", "reclaimed_bytes="]

  function Fields(names: seq<string>): seq<Item> {
    if names == [] then [Lit("]")] else [Spaces, Lit(names[0]), Digits] + Fields(names[1..])
  }

  function Pattern(): seq<Item> {
    [Lit(HEAD)] + Fields(NAMES)
  }

  datatype ResidencyReport = ResidencyReport(hotSlots: nat, stats: Stats)

  function Field(name: string, value: nat, rest: string): string {
    " " + (name + (Decimal(value) + rest))
  }

  /** What the runtime writes to standard error at the end of a run, between two newlines. */
  function Record(r: ResidencyReport): string {
    "[expert-residency" +
    Field("hot_slots=", r.hotSlots,
    Field("volatile=", r.stats.volatileTransitions,
    Field("revalidate=", r.stats.revalidations,
    Field("retained=", r.stats.retained,
    Field("empty=", r.stats.emptyRecoveries,
    Field("discard=", r.stats.explicitDiscards,
    Field("invalidated_slots=", r.stats.invalidatedSlots,
    Field("reclaimed_bytes=", r.stats.reclaimedBytes, "]"))))))))
  }

  function Line(r: ResidencyReport): string {
    "\n" + Record(r) + "\n"
  }

  function Values(r: ResidencyReport): seq<nat> {
    [r.hotSlots, r.stats.volatileTransitions, r.stats.revalidations, r.stats.retained, r.stats.emptyRecoveries,
     r.stats.explicitDiscards, r.stats.invalidatedSlots, r.stats.reclaimedBytes]
  }

  function FieldText(names: seq<string>, values: seq<nat>): string
    requires |names| == |values|
  {
    if names == [] then "]" else Field(names[0], values[0], FieldText(names[1..], values[1..]))
  }

  lemma FieldStep(names: seq<string>, values: seq<nat>, k: nat)
    requires k < |names| == |values|
    ensures FieldText(names[k..], values[k..]) == Field(names[k], values[k], FieldText(names[k + 1..], values[k + 1..]))
  {
    assert names[k..][1..] == names[k + 1..] && values[k..][1..] == values[k + 1..];
  }

  lemma RecordIsFields(r: ResidencyReport)
    ensures Record(r) == HEAD + FieldText(NAMES, Values(r))
  {
    var v := Values(r);
    assert NAMES[8..] == [] && v[8..] == [] && NAMES[0..] == NAMES && v[0..] == v;
    FieldStep(NAMES, v, 7);
    FieldStep(NAMES, v, 6);
    FieldStep(NAMES, v, 5);
    FieldStep(NAMES, v, 4);
    FieldStep(NAMES, v, 3);
    FieldStep(NAMES, v, 2);
    FieldStep(NAMES, v, 1);
    FieldStep(NAMES, v, 0);
  }

  ghost predicate GoodName(name: string) {
    name != "" && !IsSpace(name[0]) && !IsDigit(name[0]) && '[' !in name
  }

  lemma PrintOneField(name: string, rest: seq<Item>, values: seq<nat>)
    requires values != []
    ensures Print([Spaces, Lit(name), Digits] + rest, values) == Field(name, values[0], Print(rest, values[1..]))
    ensures DigitsIn([Spaces, Lit(name), Digits] + rest) == 1 + DigitsIn(rest)
  {
    var all := [Spaces, Lit(name), Digits] + rest;
    assert all[1..] == [Lit(name), Digits] + rest && all[1..][1..] == [Digits] + rest && all[1..][1..][1..] == rest;
    assert Print([Digits] + rest, values) == Decimal(values[0]) + Print(rest, values[1..]);
    assert Print([Lit(name), Digits] + rest, values) == name + Print([Digits] + rest, values);
    assert DigitsIn([Digits] + rest) == 1 + DigitsIn(rest);
    assert DigitsIn([Lit(name), Digits] + rest) == DigitsIn([Digits] + rest);
  }

  lemma {:induction false} FieldsPrint(names: seq<string>, values: seq<nat>)
    requires |names| == |values|
    ensures Print(Fields(names), values) == FieldText(names, values) && DigitsIn(Fields(names)) == |names|
  {
    if names == [] {
      assert Fields(names)[1..] == [];
    } else {
      FieldsPrint(names[1..], values[1..]);
      PrintOneField(names[0], Fields(names[1..]), values);
    }
  }

  lemma {:induction false} FieldsAreFine(names: seq<string>)
    requires forall i :: 0 <= i < |names| ==> GoodName(names[i])
    ensures Tidy(Fields(names)) && NoOpening(Fields(names))
    ensures Fields(names)[|Fields(names)| - 1] == Lit("]") && !Fields(names)[0].Digits?
  {
    if names != [] {
      FieldsAreFine(names[1..]);
      AddField(names[0], Fields(names[1..]));
    }
  }

  lemma AddField(name: string, rest: seq<Item>)
    requires GoodName(name) && rest != [] && Tidy(rest) && NoOpening(rest) && !rest[0].Digits?
    ensures Tidy([Spaces, Lit(name), Digits] + rest) && NoOpening([Spaces, Lit(name), Digits] + rest)
  {
    var all := [Spaces, Lit(name), Digits] + rest;
    assert forall i :: 3 <= i < |all| ==> all[i] == rest[i - 3];
  }

  /** A pattern that opens with its only '[' and closes with ']'. */
  ghost predicate Framed(items: seq<Item>) {
    && |items| > 1 && Tidy(items) && NoOpening(items[1..])
    && items[0].Lit? && items[0].text != "" && items[0].text[0] == '[' && '[' !in items[0].text[1..]
    && items[|items| - 1] == Lit("]")
  }

  lemma HeadFrames(head: string, rest: seq<Item>)
    requires Tidy(rest) && NoOpening(rest) && rest != [] && rest[|rest| - 1] == Lit("]")
    requires head != "" && head[0] == '[' && '[' !in head[1..]
    ensures Framed([Lit(head)] + rest)
  {
    var all := [Lit(head)] + rest;
    assert all[1..] == rest && forall i :: 1 <= i < |all| ==> all[i] == rest[i - 1];
  }

  lemma HeadOpensOnce()
    ensures HEAD[0] == '[' && '[' !in HEAD[1..]
  {
  }

  lemma NamesAreGood(i: nat)
    requires i < |NAMES|
    ensures GoodName(NAMES[i])
  {
  }

  lemma PatternIsFine()
    ensures Framed(Pattern())
  {
    forall i | 0 <= i < |NAMES| ensures GoodName(NAMES[i]) {
      NamesAreGood(i);
    }
    FieldsAreFine(NAMES);
    HeadOpensOnce();
    HeadFrames(HEAD, Fields(NAMES));
  }

  lemma PatternPrints(r: ResidencyReport)
    ensures Print(Pattern(), Values(r)) == Record(r) && DigitsIn(Pattern()) == |Values(r)|
  {
    RecordIsFields(r);
    FieldsPrint(NAMES, Values(r));
    assert Pattern()[1..] == Fields(NAMES);
  }

  // ----- Parsing --------------------------------------------------------------------

  /** All matches in the text, from left to right. */
  function Scan(items: seq<Item>, s: string): seq<seq<nat>>
    decreases |s|
  {
    if s == "" then []
    else
      var m := MatchStart(items, s);
      if m.None? || m.value.length == 0 then Scan(items, s[1..])
      else [m.value.values] + Scan(items, s[m.value.length..])
  }

  datatype Parsed = Absent | Found(residency: ResidencyReport) | Ambiguous

  /** A receipt is optional, but two of them are an error. */
  function ParseResidency(stderr: string): Parsed {
    var rows := Scan(Pattern(), stderr);
    if |rows| > 1 then Ambiguous
    else if |rows| == 1 && |rows[0]| == 8 then
      var v := rows[0];
      Found(ResidencyReport(v[0], Stats(v[1], v[2], v[3], v[4], v[5], v[6], v[7])))
    else Absent
  }

  ghost predicate Unmatched(items: seq<Item>, t: string) {
    forall i :: 0 <= i < |t| ==> MatchStart(items, t[i..]).None?
  }

  /** No part of t fits the pattern. */
  ghost predicate NoMatch(items: seq<Item>, t: string) {
    forall i, k, values :: 0 <= i <= k <= |t| ==> !Splits(items, t[i..k], values)
  }

  lemma MatchIsPart(items: seq<Item>, t: string, i: nat)
    requires i <= |t| && MatchStart(items, t[i..]).Some?
    ensures !NoMatch(items, t)
  {
    var m := MatchStart(items, t[i..]).value;
    MatchIsSplit(items, t[i..]);
    assert t[i..][..m.length] == t[i..i + m.length];
  }

  lemma PartIsMatch(items: seq<Item>, t: string, i: nat, k: nat, values: seq<nat>)
    requires Framed(items) && i <= k <= |t| && Splits(items, t[i..k], values)
    ensures !Unmatched(items, t)
  {
    assert t[i..][..k - i] == t[i..k];
    SplitIsMatch(items, t[i..], k - i, values);
    MatchOpens(items, t[i..]);
  }

  lemma NoMatchIsUnmatched(items: seq<Item>, t: string)
    requires Framed(items)
    ensures NoMatch(items, t) <==> Unmatched(items, t)
  {
    if !Unmatched(items, t) {
      var i: nat :| i < |t| && MatchStart(items, t[i..]).Some?;
      MatchIsPart(items, t, i);
    }
    if !NoMatch(items, t) {
      var i: nat, k: nat, values :| i <= k <= |t| && Splits(items, t[i..k], values);
      PartIsMatch(items, t, i, k, values);
    }
  }

  lemma MatchOpens(items: seq<Item>, s: string)
    requires Framed(items) && MatchStart(items, s).Some?
    ensures
      var length := MatchStart(items, s).value.length;
      && 0 < length <= |s| && s[0] == '[' && s[length - 1] == ']'
      && forall k :: 0 < k < length ==> s[k] != '['
  {
    MatchEndsInLiteral(items, s);
    var head := items[0].text;
    var tail, length := s[|head|..], MatchStart(items, s).value.length;
    MatchHasNoOpening(items[1..], tail);
    forall k | 0 < k < length ensures s[k] != '[' {
      if k < |head| {
        assert s[k] == head[k] == head[1..][k - 1];
      } else {
        assert tail[..length - |head|][k - |head|] == s[k];
      }
    }
  }

  lemma {:induction false} ScanSkips(items: seq<Item>, a: string, b: string)
    requires forall i :: 0 <= i < |a| ==> MatchStart(items, a[i..] + b).None?
    ensures Scan(items, a + b) == Scan(items, b)
  {
    if a == "" {
      assert a + b == b;
    } else {
      assert a[0..] + b == a + b && (a + b)[1..] == a[1..] + b;
      forall i | 0 <= i < |a[1..]| ensures MatchStart(items, a[1..][i..] + b).None? {
        assert a[1..][i..] == a[i + 1..];
      }
      ScanSkips(items, a[1..], b);
    }
  }

  /** No match can start in the text before a line and run on into it. */
  lemma NoMatchAcross(items: seq<Item>, s: string, tail: string)
    requires Framed(items) && s != "" && MatchStart(items, s).None?
    requires |tail| >= 2 && tail[0] == '\n' && tail[1] == '['
    ensures MatchStart(items, s + tail).None?
  {
    var all := s + tail;
    assert all[..|s|] == s && all[|s|] == '\n' && all[|s| + 1] == '[';
    if MatchStart(items, all).Some? {
      MatchOpens(items, all);
      MatchIsLocal(items, all, |s|);
    }
  }

  lemma SkipNewline(items: seq<Item>, s: string)
    requires Framed(items)
    ensures Scan(items, "\n" + s) == Scan(items, s)
  {
    var t := "\n" + s;
    if MatchStart(items, t).Some? { MatchOpens(items, t); }
    assert t[1..] == s;
  }

  lemma {:induction false} NothingToFind(items: seq<Item>, t: string)
    requires Unmatched(items, t)
    ensures Scan(items, t) == []
  {
    forall i | 0 <= i < |t| ensures MatchStart(items, t[i..] + "").None? {
      assert t[i..] + "" == t[i..];
    }
    ScanSkips(items, t, "");
    assert t + "" == t;
  }

  lemma RecordIsFound(items: seq<Item>, values: seq<nat>, rest: string)
    requires Framed(items) && |values| == DigitsIn(items)
    ensures Scan(items, "\n" + (Print(items, values) + rest)) == [values] + Scan(items, rest)
  {
    var record := Print(items, values);
    PrintMatches(items, values, record + rest);
    MatchOpens(items, record + rest);
    SkipNewline(items, record + rest);
    assert (record + rest)[|record|..] == rest;
  }

  /** A printed record on a line of its own, after text with no match, is the next match. */
  lemma NextMatch(items: seq<Item>, values: seq<nat>, before: string, after: string)
    requires Framed(items) && |values| == DigitsIn(items) && NoMatch(items, before)
    ensures Scan(items, before + ("\n" + (Print(items, values) + ("\n" + after)))) == [values] + Scan(items, after)
  {
    var line := "\n" + (Print(items, values) + ("\n" + after));
    PrintOpens(items, values);
    NoMatchIsUnmatched(items, before);
    forall i | 0 <= i < |before| ensures MatchStart(items, before[i..] + line).None? {
      NoMatchAcross(items, before[i..], line);
    }
    ScanSkips(items, before, line);
    RecordIsFound(items, values, "\n" + after);
    SkipNewline(items, after);
  }

  lemma PrintOpens(items: seq<Item>, values: seq<nat>)
    requires Framed(items)
    ensures Print(items, values) != "" && Print(items, values)[0] == '['
  {
  }

  lemma LineParts(before: string, record: string, after: string)
    ensures before + ("\n" + record + "\n") + after == before + ("\n" + (record + ("\n" + after)))
  {
  }

  /** For all counter values: the line the runtime prints, in text with no other record, is
      found exactly once and read back as the same eight numbers. */
  lemma ReceiptRoundTrip(before: string, after: string, r: ResidencyReport)
    requires NoMatch(Pattern(), before) && NoMatch(Pattern(), after)
    ensures Scan(Pattern(), before + Line(r) + after) == [Values(r)]
    ensures ParseResidency(before + Line(r) + after) == Found(r)
  {
    PatternIsFine();
    PatternPrints(r);
    NextMatch(Pattern(), Values(r), before, after);
    NoMatchIsUnmatched(Pattern(), after);
    NothingToFind(Pattern(), after);
    LineParts(before, Record(r), after);
  }

  /** A match cannot run past the text before a line into it. */
  lemma MatchStaysBefore(items: seq<Item>, a: string, tail: string)
    requires Framed(items) && MatchStart(items, a + tail).Some? && a != ""
    requires |tail| >= 2 && tail[0] == '\n' && tail[1] == '['
    ensures 0 < MatchStart(items, a + tail).value.length <= |a|
  {
    MatchOpens(items, a + tail);
    assert (a + tail)[|a|] == '\n' && (a + tail)[|a| + 1] == '[';
  }

  lemma ScanStep(items: seq<Item>, s: string)
    requires s != ""
    ensures
      var m := MatchStart(items, s);
      Scan(items, s) == if m.None? || m.value.length == 0 then Scan(items, s[1..])
                        else [m.value.values] + Scan(items, s[m.value.length..])
  {
  }

  lemma Later(a: string, tail: string, n: nat)
    requires n <= |a|
    ensures (a + tail)[n..] == a[n..] + tail
  {
  }

  /** A printed record on a line of its own is a match whatever comes before it. */
  lemma {:induction false} LineIsFound(items: seq<Item>, values: seq<nat>, a: string, b: string)
    requires Framed(items) && |values| == DigitsIn(items)
    ensures |Scan(items, a + ("\n" + (Print(items, values) + ("\n" + b))))| >= 1 + |Scan(items, b)|
    decreases |a|
  {
    var tail := "\n" + (Print(items, values) + ("\n" + b));
    if a == "" {
      assert a + tail == tail;
      RecordIsFound(items, values, "\n" + b);
      SkipNewline(items, b);
    } else {
      PrintOpens(items, values);
      ScanStep(items, a + tail);
      var n := 1;
      if MatchStart(items, a + tail).Some? {
        MatchStaysBefore(items, a, tail);
        n := MatchStart(items, a + tail).value.length;
      }
      Later(a, tail, n);
      LineIsFound(items, values, a[n..], b);
    }
  }

  /** Two receipts are refused, wherever they are and whatever else is in the text. */
  lemma TwoReceiptsAreRefused(before: string, r: ResidencyReport, mid: string, q: ResidencyReport, after: string)
    ensures ParseResidency(before + Line(r) + (mid + Line(q) + after)) == Ambiguous
  {
    PatternIsFine();
    PatternPrints(r);
    PatternPrints(q);
    LineIsFound(Pattern(), Values(r), before, mid + Line(q) + after);
    LineIsFound(Pattern(), Values(q), mid, after);
    LineParts(before, Record(r), mid + Line(q) + after);
    LineParts(mid, Record(q), after);
  }

  /** Nothing is found exactly where nothing fits the pattern. */
  lemma {:induction false} NothingFound(items: seq<Item>, s: string)
    requires Framed(items) && Scan(items, s) == []
    ensures Unmatched(items, s)
    decreases |s|
  {
    if s != "" {
      ScanStep(items, s);
      if MatchStart(items, s).Some? {
        MatchOpens(items, s);
      }
      NothingFound(items, s[1..]);
      forall i | 0 <= i < |s| ensures MatchStart(items, s[i..]).None? {
        if i == 0 {
          assert s[0..] == s;
        } else {
          assert s[i..] == s[1..][i - 1..];
        }
      }
    }
  }

  ghost predicate PartFits(items: seq<Item>, s: string, i: nat, k: nat, values: seq<nat>) {
    i <= k <= |s| && Splits(items, s[i..k], values)
  }

  /** What is found first is a part of the text that fits the pattern. */
  lemma {:induction false} FoundIsPart(items: seq<Item>, s: string) returns (i: nat, k: nat)
    requires Framed(items) && Scan(items, s) != []
    ensures PartFits(items, s, i, k, Scan(items, s)[0])
    decreases |s|
  {
    ScanStep(items, s);
    var m := MatchStart(items, s);
    if m.None? || m.value.length == 0 {
      i, k := FoundIsPart(items, s[1..]);
      assert s[1..][i..k] == s[i + 1..k + 1];
      i, k := i + 1, k + 1;
    } else {
      MatchOpens(items, s);
      MatchIsSplit(items, s);
      i, k := 0, m.value.length;
      assert s[0..k] == s[..k];
    }
  }

  lemma {:induction false} SplitsCount(items: seq<Item>, w: string, values: seq<nat>)
    requires Splits(items, w, values)
    ensures |values| == DigitsIn(items)
    decreases |items|
  {
    if items != [] {
      var n: nat :| n <= |w| && SplitsAt(items, w, n, values);
      SplitsCount(items[1..], w[n..], Rest(items[0], values));
    }
  }

  lemma ScanMeans(items: seq<Item>, s: string)
    requires Framed(items)
    ensures Scan(items, s) == [] <==> NoMatch(items, s)
    ensures Scan(items, s) != [] ==>
              && |Scan(items, s)[0]| == DigitsIn(items)
              && exists i, k :: PartFits(items, s, i, k, Scan(items, s)[0])
  {
    NoMatchIsUnmatched(items, s);
    if Scan(items, s) == [] {
      NothingFound(items, s);
    } else {
      var i, k := FoundIsPart(items, s);
      SplitsCount(items, s[i..k], Scan(items, s)[0]);
    }
  }

  lemma ValuesOfFound(row: seq<nat>)
    requires |row| == 8
    ensures Values(ResidencyReport(row[0], Stats(row[1], row[2], row[3], row[4], row[5], row[6], row[7]))) == row
  {
  }

  lemma PatternHasEight()
    ensures DigitsIn(Pattern()) == 8
  {
    PatternPrints(ResidencyReport(0, Stats(0, 0, 0, 0, 0, 0, 0)));
  }

  /** For every text: there is no receipt exactly when no part of it fits the pattern, and a
      receipt that is given back is some part of the text that fits it with these numbers. */
  lemma ParsedMeans(s: string)
    ensures ParseResidency(s) == Absent <==> NoMatch(Pattern(), s)
    ensures ParseResidency(s).Found? ==>
              exists i, k :: PartFits(Pattern(), s, i, k, Values(ParseResidency(s).residency))
  {
    PatternIsFine();
    PatternHasEight();
    ScanMeans(Pattern(), s);
    if |Scan(Pattern(), s)| == 1 {
      ValuesOfFound(Scan(Pattern(), s)[0]);
    }
  }
}

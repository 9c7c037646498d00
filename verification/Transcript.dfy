/** What a ChatML reply means, whatever chunks it arrives in.

    A reply is a string of characters broken by think-start and think-end tokens. `Runs` cuts
    it at those tokens; `Render` says what the reader should be shown, one mark a character.
    Nothing here knows about deltas, flags or channels. */
module Transcript {
  datatype Symbol = Open | Close | Chr(c: char)

  datatype Mark = Started | Ended | Thought(c: char) | Said(c: char)

  /** Plain text opens an answer and keeps its newlines; text after a think-end loses the
      newlines it starts with. */
  datatype Kind = Plain | Musing | Trimmed

  datatype Run = Run(kind: Kind, text: string)

  function DropNewlines(s: string): (r: string)
    ensures r != "" ==> r[0] != '\n'
    ensures |r| <= |s| && r == s[|s| - |r|..]
    ensures forall i :: 0 <= i < |s| - |r| ==> s[i] == '\n'
  {
    if s != "" && s[0] == '\n' then DropNewlines(s[1..]) else s
  }

  lemma {:induction false} DropNewlinesOfSum(a: string, b: string)
    ensures DropNewlines(a + b) == if DropNewlines(a) == "" then DropNewlines(b) else DropNewlines(a) + b
  {
    if a == "" {
      assert a + b == b;
    } else if a[0] == '\n' {
      assert (a + b)[1..] == a[1..] + b;
      DropNewlinesOfSum(a[1..], b);
    }
  }

  function Chars(text: string): seq<Symbol> {
    seq(|text|, i requires 0 <= i < |text| => Chr(text[i]))
  }

  function Thoughts(text: string): seq<Mark> {
    seq(|text|, i requires 0 <= i < |text| => Thought(text[i]))
  }

  function Saids(text: string): seq<Mark> {
    seq(|text|, i requires 0 <= i < |text| => Said(text[i]))
  }

  lemma ConcatenatedText(a: string, b: string)
    ensures Chars(a + b) == Chars(a) + Chars(b)
    ensures Thoughts(a + b) == Thoughts(a) + Thoughts(b)
    ensures Saids(a + b) == Saids(a) + Saids(b)
  {
  }

  // ----- Cutting a reply into runs --------------------------------------------------

  /** The text before the first think token. */
  function LeadingText(syms: seq<Symbol>): (t: string)
    ensures |t| <= |syms| && syms[..|t|] == Chars(t)
    ensures |t| < |syms| ==> !syms[|t|].Chr?
  {
    if syms == [] || !syms[0].Chr? then "" else [syms[0].c] + LeadingText(syms[1..])
  }

  function Runs(first: Kind, syms: seq<Symbol>): (runs: seq<Run>)
    ensures runs != [] && runs[0].kind == first
    ensures forall i :: 0 < i < |runs| ==> runs[i].kind != Plain
    decreases |syms|
  {
    var t := LeadingText(syms);
    if |t| == |syms| then [Run(first, t)] else [Run(first, t)] + Runs(Begins(syms[|t|]), syms[|t| + 1..])
  }

  /** The kind of the run a think token begins. */
  function Begins(token: Symbol): Kind {
    if token == Open then Musing else Trimmed
  }

  function Last(runs: seq<Run>): Run
    requires runs != []
  {
    runs[|runs| - 1]
  }

  /** `text` added to the last run. */
  function Extend(runs: seq<Run>, text: string): seq<Run>
    requires runs != []
  {
    runs[|runs| - 1 := Last(runs).(text := Last(runs).text + text)]
  }

  lemma {:induction false} LeadingTextUnique(syms: seq<Symbol>, t: string)
    requires |t| <= |syms| && syms[..|t|] == Chars(t)
    requires |t| < |syms| ==> !syms[|t|].Chr?
    ensures LeadingText(syms) == t
  {
    if t != "" {
      assert syms[0] == Chars(t)[0] == Chr(t[0]);
      var n := |t| - 1;
      assert syms[1..][..n] == syms[..|t|][1..] == Chars(t[1..]);
      LeadingTextUnique(syms[1..], t[1..]);
    }
  }

  lemma ExtendLater(run: Run, later: seq<Run>, text: string)
    requires later != []
    ensures Extend([run] + later, text) == [run] + Extend(later, text)
  {
  }

  lemma RunsOfAllText(first: Kind, t: string)
    ensures Runs(first, Chars(t)) == [Run(first, t)]
  {
    assert Chars(t)[..|t|] == Chars(t);
    LeadingTextUnique(Chars(t), t);
  }

  /** The first run ends at the first think token. */
  lemma RunsUnfold(first: Kind, syms: seq<Symbol>, t: string)
    requires |t| < |syms| && syms[..|t|] == Chars(t) && !syms[|t|].Chr?
    ensures Runs(first, syms) == [Run(first, t)] + Runs(Begins(syms[|t|]), syms[|t| + 1..])
  {
    LeadingTextUnique(syms, t);
  }

  /** More text only lengthens the last run. */
  lemma {:induction false} RunsOfText(first: Kind, syms: seq<Symbol>, text: string)
    ensures Runs(first, syms + Chars(text)) == Extend(Runs(first, syms), text)
    decreases |syms|
  {
    var t, all := LeadingText(syms), syms + Chars(text);
    if |t| == |syms| {
      assert syms == syms[..|t|];
      ConcatenatedText(t, text);
      RunsOfAllText(first, t);
      RunsOfAllText(first, t + text);
    } else {
      var later := syms[|t| + 1..];
      assert all[..|t|] == syms[..|t|] && all[|t| + 1..] == later + Chars(text);
      RunsUnfold(first, syms, t);
      RunsUnfold(first, all, t);
      RunsOfText(Begins(syms[|t|]), later, text);
      ExtendLater(Run(first, t), Runs(Begins(syms[|t|]), later), text);
    }
  }

  lemma AddLater(run: Run, later: seq<Run>, last: Run)
    ensures [run] + (later + [last]) == ([run] + later) + [last]
  {
  }

  /** A think token starts a new, empty run. */
  lemma {:induction false} RunsOfToken(first: Kind, syms: seq<Symbol>, token: Symbol)
    requires !token.Chr?
    ensures Runs(first, syms + [token]) == Runs(first, syms) + [Run(Begins(token), "")]
    decreases |syms|
  {
    var t, all := LeadingText(syms), syms + [token];
    assert all[..|t|] == syms[..|t|];
    RunsUnfold(first, all, t);
    if |t| == |syms| {
      assert syms == syms[..|t|] && all[|t| + 1..] == Chars("");
      RunsOfAllText(first, t);
      RunsOfAllText(Begins(token), "");
    } else {
      var later := syms[|t| + 1..];
      assert all[|t| + 1..] == later + [token];
      RunsUnfold(first, syms, t);
      RunsOfToken(Begins(syms[|t|]), later, token);
      AddLater(Run(first, t), Runs(Begins(syms[|t|]), later), Run(Begins(token), ""));
    }
  }

  // ----- What the reader is shown ---------------------------------------------------

  function Shown(run: Run): string {
    if run.kind == Trimmed then DropNewlines(run.text) else run.text
  }

  function RunMarks(run: Run): seq<Mark> {
    if run.kind == Musing then Thoughts(run.text) else Saids(Shown(run))
  }

  function Opening(kind: Kind): Mark {
    if kind == Musing then Started else Ended
  }

  /** Everything before the text of the last run. */
  function Before(runs: seq<Run>): seq<Mark>
    requires runs != []
    decreases |runs|, 0
  {
    if |runs| == 1 then [] else Render(runs[..|runs| - 1]) + [Opening(Last(runs).kind)]
  }

  function Render(runs: seq<Run>): seq<Mark>
    requires runs != []
    decreases |runs|, 1
  {
    Before(runs) + RunMarks(Last(runs))
  }

  /** What `text` adds to the end of a reply. */
  function Added(run: Run, text: string): seq<Mark> {
    if run.kind == Musing then Thoughts(text)
    else if run.kind == Trimmed && DropNewlines(run.text) == "" then Saids(DropNewlines(text))
    else Saids(text)
  }

  lemma SaidsAfterDrop(dropped: string, text: string)
    requires dropped == ""
    ensures Saids(dropped) + Saids(text) == Saids(text)
  {
  }

  lemma RunMarksGrow(run: Run, text: string)
    ensures RunMarks(run.(text := run.text + text)) == RunMarks(run) + Added(run, text)
  {
    if run.kind == Trimmed {
      DropNewlinesOfSum(run.text, text);
      if DropNewlines(run.text) == "" {
        SaidsAfterDrop(DropNewlines(run.text), DropNewlines(text));
      } else {
        ConcatenatedText(DropNewlines(run.text), text);
      }
    } else {
      ConcatenatedText(run.text, text);
    }
  }

  lemma RenderOfText(runs: seq<Run>, text: string)
    requires runs != []
    ensures Render(Extend(runs, text)) == Render(runs) + Added(Last(runs), text)
  {
    RunMarksGrow(Last(runs), text);
    assert Extend(runs, text)[..|runs| - 1] == runs[..|runs| - 1];
    assert Before(Extend(runs, text)) == Before(runs);
    assert Before(runs) + (RunMarks(Last(runs)) + Added(Last(runs), text))
        == Before(runs) + RunMarks(Last(runs)) + Added(Last(runs), text);
  }

  lemma RenderOfToken(runs: seq<Run>, kind: Kind)
    requires runs != []
    ensures Render(runs + [Run(kind, "")]) == Render(runs) + [Opening(kind)]
  {
    var more := runs + [Run(kind, "")];
    assert more[..|more| - 1] == runs;
    assert RunMarks(Run(kind, "")) == [];
  }

  // ----- The answer and the reasoning -----------------------------------------------

  function Answer(runs: seq<Run>): string {
    if runs == [] then ""
    else Answer(runs[..|runs| - 1]) + if Last(runs).kind == Musing then "" else Shown(Last(runs))
  }

  function Musings(runs: seq<Run>): string {
    if runs == [] then ""
    else Musings(runs[..|runs| - 1]) + if Last(runs).kind == Musing then Last(runs).text else ""
  }

  function SaidText(marks: seq<Mark>): string {
    if marks == [] then ""
    else
      var m := marks[|marks| - 1];
      SaidText(marks[..|marks| - 1]) + if m.Said? then [m.c] else ""
  }

  function ThoughtText(marks: seq<Mark>): string {
    if marks == [] then ""
    else
      var m := marks[|marks| - 1];
      ThoughtText(marks[..|marks| - 1]) + if m.Thought? then [m.c] else ""
  }

  lemma {:induction false} TextOfSum(a: seq<Mark>, b: seq<Mark>)
    ensures SaidText(a + b) == SaidText(a) + SaidText(b)
    ensures ThoughtText(a + b) == ThoughtText(a) + ThoughtText(b)
  {
    if b == [] {
      assert a + b == a;
    } else {
      assert (a + b)[..|a + b| - 1] == a + b[..|b| - 1];
      TextOfSum(a, b[..|b| - 1]);
    }
  }

  lemma {:induction false} TextOfText(text: string)
    ensures SaidText(Saids(text)) == text && ThoughtText(Saids(text)) == ""
    ensures ThoughtText(Thoughts(text)) == text && SaidText(Thoughts(text)) == ""
  {
    if text != "" {
      var n := |text| - 1;
      assert Saids(text)[..n] == Saids(text[..n]) && Thoughts(text)[..n] == Thoughts(text[..n]);
      TextOfText(text[..n]);
      assert text == text[..n] + [text[n]];
    }
  }

  lemma TextOfRun(run: Run)
    ensures SaidText(RunMarks(run)) == if run.kind == Musing then "" else Shown(run)
    ensures ThoughtText(RunMarks(run)) == if run.kind == Musing then run.text else ""
  {
    TextOfText(Shown(run));
    TextOfText(run.text);
  }

  lemma TextOfToken(marks: seq<Mark>, kind: Kind)
    ensures SaidText(marks + [Opening(kind)]) == SaidText(marks)
    ensures ThoughtText(marks + [Opening(kind)]) == ThoughtText(marks)
  {
    assert (marks + [Opening(kind)])[..|marks|] == marks;
  }

  /** The marks keep both texts whole and apart. */
  lemma {:induction false} RenderKeepsBothTexts(runs: seq<Run>)
    requires runs != []
    ensures SaidText(Render(runs)) == Answer(runs)
    ensures ThoughtText(Render(runs)) == Musings(runs)
  {
    var rest, run := runs[..|runs| - 1], Last(runs);
    TextOfRun(run);
    TextOfSum(Before(runs), RunMarks(run));
    if |runs| > 1 {
      RenderKeepsBothTexts(rest);
      TextOfToken(Render(rest), run.kind);
    } else {
      assert rest == [];
    }
  }

  // ----- Thinking blocks ------------------------------------------------------------

  /** The stretches of reasoning a reader sees as blocks, from the marks alone. */
  function Spans(marks: seq<Mark>): (spans: seq<string>)
    ensures Thinking(marks) ==> spans != []
  {
    if marks == [] then []
    else
      var rest, m := marks[..|marks| - 1], marks[|marks| - 1];
      match m
      case Started => Spans(rest) + [""]
      case Thought(c) =>
        if Thinking(rest) then AppendToLast(Spans(rest), [c]) else Spans(rest) + [[c]]
      case _ => Spans(rest)
  }

  predicate Thinking(marks: seq<Mark>) {
    marks != [] && (marks[|marks| - 1].Started? || marks[|marks| - 1].Thought?)
  }

  function AppendToLast(spans: seq<string>, text: string): seq<string>
    requires spans != []
  {
    spans[|spans| - 1 := spans[|spans| - 1] + text]
  }

  /** Nothing is said in the middle of a thought. */
  ghost predicate Orderly(marks: seq<Mark>) {
    forall i :: 0 < i < |marks| && marks[i].Said? ==> marks[i - 1].Said? || marks[i - 1].Ended?
  }

  lemma AppendTwice(spans: seq<string>, a: string, b: string)
    requires spans != []
    ensures AppendToLast(AppendToLast(spans, a), b) == AppendToLast(spans, a + b)
  {
    var text := spans[|spans| - 1];
    assert (text + a) + b == text + (a + b);
  }

  lemma AppendToNew(spans: seq<string>, a: string, b: string)
    ensures AppendToLast(spans + [a], b) == spans + [a + b]
  {
  }

  lemma SpansOfThought(marks: seq<Mark>, c: char)
    ensures Thinking(marks + [Thought(c)])
    ensures Spans(marks + [Thought(c)])
         == if Thinking(marks) then AppendToLast(Spans(marks), [c]) else Spans(marks) + [[c]]
  {
    assert (marks + [Thought(c)])[..|marks|] == marks;
  }

  lemma {:induction false} SpansOfText(marks: seq<Mark>, text: string)
    requires text != ""
    ensures Thinking(marks + Thoughts(text))
    ensures Spans(marks + Thoughts(text))
         == if Thinking(marks) then AppendToLast(Spans(marks), text) else Spans(marks) + [text]
  {
    var n := |text| - 1;
    var front := text[..n];
    assert text == front + [text[n]];
    assert marks + Thoughts(text) == (marks + Thoughts(front)) + [Thought(text[n])];
    SpansOfThought(marks + Thoughts(front), text[n]);
    if n == 0 {
      assert marks + Thoughts(front) == marks;
      assert text == [text[n]];
    } else {
      SpansOfText(marks, front);
      if Thinking(marks) {
        AppendTwice(Spans(marks), front, [text[n]]);
      } else {
        AppendToNew(Spans(marks), front, [text[n]]);
      }
    }
  }

  lemma {:induction false} SpansOfSaids(marks: seq<Mark>, text: string)
    ensures Spans(marks + Saids(text)) == Spans(marks)
    ensures text == "" ==> marks + Saids(text) == marks
  {
    if text == "" {
      assert marks + Saids(text) == marks;
    } else {
      var all := marks + Saids(text);
      assert all[..|all| - 1] == marks + Saids(text[..|text| - 1]);
      SpansOfSaids(marks, text[..|text| - 1]);
    }
  }

  /** The reasoning runs of a reply. The generation prompt may have opened the first one; it
      counts only once it has text. */
  function ThoughtRuns(runs: seq<Run>): seq<string> {
    if runs == [] then []
    else
      var run := Last(runs);
      ThoughtRuns(runs[..|runs| - 1])
        + if run.kind == Musing && (|runs| > 1 || run.text != "") then [run.text] else []
  }

  lemma SpansOfRun(before: seq<Mark>, run: Run)
    ensures Spans(before + RunMarks(run))
         == if run.kind != Musing || run.text == "" then Spans(before)
            else if Thinking(before) then AppendToLast(Spans(before), run.text)
            else Spans(before) + [run.text]
    ensures run.kind == Musing ==> (Thinking(before + RunMarks(run)) <==> Thinking(before) || run.text != "")
    ensures run.kind != Musing && !Thinking(before) ==> !Thinking(before + RunMarks(run))
  {
    if run.kind != Musing {
      SpansOfSaids(before, Shown(run));
    } else if run.text == "" {
      assert before + RunMarks(run) == before;
    } else {
      SpansOfText(before, run.text);
    }
  }

  lemma SpansOfToken(marks: seq<Mark>, kind: Kind)
    ensures Spans(marks + [Opening(kind)]) == if kind == Musing then Spans(marks) + [""] else Spans(marks)
    ensures Thinking(marks + [Opening(kind)]) <==> kind == Musing
  {
    assert (marks + [Opening(kind)])[..|marks|] == marks;
  }

  lemma SpansOfLaterRun(marks: seq<Mark>, run: Run)
    ensures
      var all := marks + [Opening(run.kind)] + RunMarks(run);
      && Spans(all) == Spans(marks) + (if run.kind == Musing then [run.text] else [])
      && (Thinking(all) <==> run.kind == Musing)
  {
    SpansOfToken(marks, run.kind);
    SpansOfRun(marks + [Opening(run.kind)], run);
    AppendToNew(Spans(marks), "", run.text);
    assert "" + run.text == run.text;
  }

  /** The blocks a reader sees are the reasoning runs of the reply. */
  lemma {:induction false} SpansAreThoughtRuns(runs: seq<Run>)
    requires runs != [] && forall i :: 0 < i < |runs| ==> runs[i].kind != Plain
    ensures Spans(Render(runs)) == ThoughtRuns(runs)
    ensures Thinking(Render(runs)) <==>
              Last(runs).kind == Musing && (|runs| > 1 || Last(runs).text != "")
  {
    var rest, run := runs[..|runs| - 1], Last(runs);
    if |runs| > 1 {
      SpansAreThoughtRuns(rest);
      SpansOfLaterRun(Render(rest), run);
    } else {
      SpansOfRun([], run);
      assert rest == [];
    }
  }

  lemma OrderlyText(before: seq<Mark>, run: Run)
    requires Orderly(before)
    requires before != [] && run.kind != Musing ==> before[|before| - 1].Ended?
    ensures Orderly(before + RunMarks(run))
  {
    var all := before + RunMarks(run);
    forall i | 0 < i < |all| && all[i].Said? ensures all[i - 1].Said? || all[i - 1].Ended? {
      if i < |before| {
        assert all[i] == before[i];
      } else {
        assert run.kind != Musing;
      }
    }
  }

  /** Nothing is ever said while a thought is open. */
  lemma {:induction false} RenderIsOrderly(runs: seq<Run>)
    requires runs != [] && forall i :: 0 < i < |runs| ==> runs[i].kind != Plain
    ensures Orderly(Render(runs))
  {
    if |runs| > 1 {
      RenderIsOrderly(runs[..|runs| - 1]);
    }
    OrderlyText(Before(runs), Last(runs));
  }
}

/** The app's end of the stream: the client that reads the wire, and the model that keeps the
    answer and the thinking blocks apart.

    The last lemmas join the whole pipeline: whatever the decoder was fed, however it was cut,
    however publishing and draining interleave and whatever the client throttles, the blocks
    on screen are the reasoning runs of the reply and the collected answer is the reply's. */
module AppModels {
  import opened Options
  import opened Transcript
  import opened TokenEvents
  import opened AssistantDecoder
  import opened Outbox

  // ----- The client ----------------------------------------------------------------

  /** `shown` is what the client passed on of `full`: every event of the other channels, and
      of the content events any selection, each with its text or blank. */
  ghost predicate Throttled(full: seq<AppTokenEvent>, shown: seq<AppTokenEvent>) {
    if full == [] then shown == []
    else
      var rest, t := full[..|full| - 1], full[|full| - 1];
      if t.channel != AppTokenChannel.Content then
        shown != [] && shown[|shown| - 1] == t && Throttled(rest, shown[..|shown| - 1])
      else
        || Throttled(rest, shown)
        || (&& shown != []
            && (shown[|shown| - 1] == t || shown[|shown| - 1] == t.(textDelta := ""))
            && Throttled(rest, shown[..|shown| - 1]))
  }

  lemma ThrottledKeeps(full: seq<AppTokenEvent>, shown: seq<AppTokenEvent>, t: AppTokenEvent)
    requires Throttled(full, shown)
    ensures Throttled(full + [t], shown + [t])
    ensures t.channel == AppTokenChannel.Content ==>
              Throttled(full + [t], shown) && Throttled(full + [t], shown + [t.(textDelta := "")])
  {
    var blank := t.(textDelta := "");
    assert (full + [t])[..|full|] == full && (shown + [t])[..|shown|] == shown;
    assert (shown + [blank])[..|shown|] == shown;
  }

  lemma ContentOfOneMore(ts: seq<AppTokenEvent>, t: AppTokenEvent)
    ensures ContentText(ts + [t])
         == if t.channel == AppTokenChannel.Content then ContentText(ts) + t.textDelta else ContentText(ts)
  {
    assert (ts + [t])[..|ts|] == ts;
  }

  class DecodeServiceInferenceClient {
    var generationTranscriptMailbox: string
    var yielded: seq<AppTokenEvent>
    ghost var frames: seq<Frame>

    /** All the content reaches the mailbox, throttled or not. */
    ghost predicate Valid()
      reads this
    {
      && generationTranscriptMailbox == ContentText(Tokens(frames))
      && Throttled(Tokens(frames), yielded)
    }

    constructor ()
      ensures Valid() && frames == []
    {
      generationTranscriptMailbox, yielded, frames := "", [], [];
    }

    /** One frame off the wire. Which content events are passed on depends on a clock. */
    method Receive(frame: Frame)
      requires Valid()
      modifies this
      ensures Valid() && frames == old(frames) + [frame]
    {
      OneMoreFrame(frames, frame);
      if frame.Snapshot? {
        var event := Decode(frame);
        ContentOfOneMore(Tokens(frames), event);
        ThrottledKeeps(Tokens(frames), yielded, event);
        if event.channel != AppTokenChannel.Content {
          yielded := yielded + [event];
        } else {
          generationTranscriptMailbox := generationTranscriptMailbox + event.textDelta;
          var due: bool := *;
          var beginsVisibleText: bool := *;
          if due {
            yielded := yielded + [if beginsVisibleText then event else event.(textDelta := "")];
          }
        }
      }
      frames := frames + [frame];
    }
  }

  // ----- The model, on values ------------------------------------------------------

  datatype AppThinkingBlock = AppThinkingBlock(id: nat, text: string, isComplete: bool)

  datatype Screen = Screen(outputText: string, thinkingBlocks: seq<AppThinkingBlock>, isThinking: bool, nextID: nat)

  const BLANK := Screen("", [], false, 0)

  /** Blocks are numbered from 0; only the last may be open, and thinking says whether it is. */
  ghost predicate Kept(s: Screen) {
    var n := |s.thinkingBlocks|;
    && s.nextID == n
    && (forall i :: 0 <= i < n ==> s.thinkingBlocks[i].id == i)
    && (forall i :: 0 <= i < n - 1 ==> s.thinkingBlocks[i].isComplete)
    && (s.isThinking <==> n > 0 && !s.thinkingBlocks[n - 1].isComplete)
  }

  ghost predicate AllComplete(s: Screen) {
    !s.isThinking && forall i :: 0 <= i < |s.thinkingBlocks| ==> s.thinkingBlocks[i].isComplete
  }

  function EndBlock(s: Screen): Screen {
    if !s.isThinking then s
    else if s.thinkingBlocks == [] then s.(isThinking := false)
    else
      var last := |s.thinkingBlocks| - 1;
      s.(thinkingBlocks := s.thinkingBlocks[last := s.thinkingBlocks[last].(isComplete := true)],
         isThinking := false)
  }

  function StartBlock(s: Screen): Screen {
    var t := EndBlock(s);
    t.(thinkingBlocks := t.thinkingBlocks + [AppThinkingBlock(t.nextID, "", false)],
       nextID := t.nextID + 1, isThinking := true)
  }

  function AppendThinking(s: Screen, delta: string): Screen {
    if delta == "" then s
    else
      var t := if s.isThinking then s else StartBlock(s);
      if t.thinkingBlocks == [] then t
      else
        var last := |t.thinkingBlocks| - 1;
        var block := t.thinkingBlocks[last];
        t.(thinkingBlocks := t.thinkingBlocks[last := block.(text := block.text + delta)])
  }

  function Hear(s: Screen, t: AppTokenEvent): Screen {
    match t.channel
    case Content => EndBlock(s).(outputText := s.outputText + t.textDelta)
    case ReasoningStarted => StartBlock(s)
    case Reasoning => AppendThinking(s, t.textDelta)
    case ReasoningEnded => EndBlock(s)
  }

  function HearAll(ts: seq<AppTokenEvent>): Screen {
    if ts == [] then BLANK else Hear(HearAll(ts[..|ts| - 1]), ts[|ts| - 1])
  }

  function Texts(blocks: seq<AppThinkingBlock>): seq<string> {
    seq(|blocks|, i requires 0 <= i < |blocks| => blocks[i].text)
  }

  function Joined(texts: seq<string>): string {
    if texts == [] then "" else Joined(texts[..|texts| - 1]) + texts[|texts| - 1]
  }

  lemma HearKeeps(s: Screen, t: AppTokenEvent)
    requires Kept(s)
    ensures Kept(Hear(s, t))
  {
  }

  lemma JoinedMore(texts: seq<string>, text: string)
    ensures Joined(texts + [text]) == Joined(texts) + text
    ensures texts != [] ==> Joined(AppendToLast(texts, text)) == Joined(texts) + text
  {
    assert (texts + [text])[..|texts|] == texts;
    if texts != [] {
      var n := |texts| - 1;
      assert AppendToLast(texts, text)[..n] == texts[..n];
      assert Joined(texts[..n]) + (texts[n] + text) == Joined(texts[..n]) + texts[n] + text;
    }
  }

  /** What one event does to the block texts. */
  lemma HearTexts(s: Screen, t: AppTokenEvent)
    requires Kept(s)
    ensures
      var before, after := Texts(s.thinkingBlocks), Texts(Hear(s, t).thinkingBlocks);
      match t.channel
      case ReasoningStarted => after == before + [""]
      case Reasoning =>
        if t.textDelta == "" then after == before
        else if s.isThinking then before != [] && after == AppendToLast(before, t.textDelta)
        else after == before + [t.textDelta]
      case _ => after == before
  {
    assert "" + t.textDelta == t.textDelta;
  }

  /** For every sequence of events: the answer is the content alone, the blocks together are
      the reasoning alone. */
  lemma {:induction false} ReasoningAndAnswerStayApart(ts: seq<AppTokenEvent>)
    ensures Kept(HearAll(ts))
    ensures HearAll(ts).outputText == ContentText(ts)
    ensures Joined(Texts(HearAll(ts).thinkingBlocks)) == ReasoningText(ts)
  {
    if ts != [] {
      var rest, t := ts[..|ts| - 1], ts[|ts| - 1];
      ReasoningAndAnswerStayApart(rest);
      HearKeeps(HearAll(rest), t);
      HearTexts(HearAll(rest), t);
      JoinedMore(Texts(HearAll(rest).thinkingBlocks), t.textDelta);
    }
  }

  // ----- Terminal events ------------------------------------------------------------

  /** What reaches the app: a token, an end of the run, or the failure of the stream. The text
      is what is materialized from the mailbox at that moment. */
  datatype AppEvent =
    | Heard(token: AppTokenEvent)
    | Over(ending: Ending, materialized: string)
    | Broken(materialized: string)

  /** The screen, and whether a terminal event was handled. */
  datatype App = App(screen: Screen, handled: bool)

  function Settled(a: App, ending: Ending, materialized: string): App {
    if a.handled then a
    else
      var closed := EndBlock(a.screen);
      App(if ending == Failed then closed else closed.(outputText := materialized), true)
  }

  function React(a: App, e: AppEvent): App {
    match e
    case Heard(t) => a.(screen := Hear(a.screen, t))
    case Over(ending, text) => Settled(a, ending, text)
    case Broken(text) => Settled(a.(screen := a.screen.(outputText := text)), Failed, text)
  }

  function ReactAll(es: seq<AppEvent>): App {
    if es == [] then App(BLANK, false) else React(ReactAll(es[..|es| - 1]), es[|es| - 1])
  }

  predicate Opens(e: AppEvent) {
    e.Heard? && (e.token.channel.ReasoningStarted? || (e.token.channel.Reasoning? && e.token.textDelta != ""))
  }

  predicate Closes(e: AppEvent) {
    e.Heard? && (e.token.channel.Content? || e.token.channel.ReasoningEnded?)
  }

  /** The i-th event opens a block and no token after it closes one. */
  ghost predicate OpenFrom(late: seq<AppEvent>, i: nat)
    requires i < |late|
  {
    Opens(late[i]) && forall j :: i < j < |late| ==> !Closes(late[j])
  }

  ghost predicate OpenAfter(late: seq<AppEvent>) {
    exists i :: 0 <= i < |late| && OpenFrom(late, i)
  }

  lemma OpenAfterMore(late: seq<AppEvent>, e: AppEvent)
    ensures OpenAfter(late + [e]) <==> Opens(e) || (OpenAfter(late) && !Closes(e))
  {
    var more := late + [e];
    assert Opens(e) ==> OpenFrom(more, |late|);
    if OpenAfter(late) && !Closes(e) {
      var i :| 0 <= i < |late| && OpenFrom(late, i);
      assert OpenFrom(more, i);
    }
    if OpenAfter(more) && !Opens(e) {
      var i :| 0 <= i < |more| && OpenFrom(more, i);
      assert i < |late| && more[|late|] == e;
      assert forall j :: i <= j < |late| ==> late[j] == more[j];
      assert OpenFrom(late, i);
    }
  }

  lemma {:induction false} ReactAllKeeps(es: seq<AppEvent>)
    ensures Kept(ReactAll(es).screen)
  {
    if es != [] {
      ReactAllKeeps(es[..|es| - 1]);
      if es[|es| - 1].Heard? {
        HearKeeps(ReactAll(es[..|es| - 1]).screen, es[|es| - 1].token);
      }
    }
  }

  lemma ReactedMore(es: seq<AppEvent>, e: AppEvent)
    ensures ReactAll(es + [e]) == React(ReactAll(es), e)
  {
    assert (es + [e])[..|es|] == es;
  }

  /** The first terminal event completes every block; later ones touch no block. */
  lemma Settles(a: App, e: AppEvent)
    requires Kept(a.screen) && !e.Heard?
    ensures React(a, e).handled
    ensures !a.handled ==> AllComplete(React(a, e).screen)
    ensures a.handled ==> React(a, e).screen.(outputText := a.screen.outputText) == a.screen
  {
  }

  /** Ending a run moves no text between blocks. */
  lemma SettledShows(a: App, ending: Ending, text: string)
    requires Kept(a.screen)
    ensures
      var b := Settled(a, ending, text);
      && b.handled && Kept(b.screen) && Texts(b.screen.thinkingBlocks) == Texts(a.screen.thinkingBlocks)
      && (if a.handled then b == a
          else AllComplete(b.screen) && b.screen.outputText == if ending == Failed then a.screen.outputText else text)
  {
  }

  lemma BrokenShows(a: App, text: string)
    requires Kept(a.screen)
    ensures
      var b := React(a, Broken(text));
      && b.handled && Kept(b.screen) && b.screen.outputText == text
      && Texts(b.screen.thinkingBlocks) == Texts(a.screen.thinkingBlocks)
      && (a.handled ==>
            b.screen.thinkingBlocks == a.screen.thinkingBlocks && b.screen.isThinking == a.screen.isThinking)
      && (!a.handled ==> AllComplete(b.screen))
  {
    SettledShows(a.(screen := a.screen.(outputText := text)), Failed, text);
  }

  lemma ReopensOrCloses(a: App, e: AppEvent)
    requires Kept(a.screen) && a.handled
    ensures React(a, e).handled
    ensures AllComplete(React(a, e).screen) <==> !Opens(e) && (AllComplete(a.screen) || Closes(e))
  {
    if !e.Heard? {
      Settles(a, e);
    }
  }

  /** A terminal event that is handled completes every block, and tokens that come after it
      may open one again, which no further terminal event closes. All blocks are complete
      exactly when the tokens since the handled event have left none open. */
  lemma {:induction false} CompleteUnlessReopened(before: seq<AppEvent>, end: AppEvent, late: seq<AppEvent>)
    requires !end.Heard? && forall i :: 0 <= i < |before| ==> before[i].Heard?
    ensures ReactAll(before + [end] + late).handled
    ensures AllComplete(ReactAll(before + [end] + late).screen) <==> !OpenAfter(late)
  {
    if late == [] {
      assert before + [end] + late == before + [end];
      ReactedMore(before, end);
      TokensOnly(before, seq(|before|, i requires 0 <= i < |before| => before[i].token));
      ReactAllKeeps(before);
      Settles(ReactAll(before), end);
    } else {
      var front, e := late[..|late| - 1], late[|late| - 1];
      var earlier := before + [end] + front;
      CompleteUnlessReopened(before, end, front);
      assert before + [end] + late == earlier + [e] && late == front + [e];
      ReactedMore(earlier, e);
      OpenAfterMore(front, e);
      ReactAllKeeps(earlier);
      ReopensOrCloses(ReactAll(earlier), e);
    }
  }

  /** Before any terminal event the screen is that of the tokens heard. */
  lemma {:induction false} TokensOnly(es: seq<AppEvent>, ts: seq<AppTokenEvent>)
    requires |es| == |ts| && forall i :: 0 <= i < |es| ==> es[i] == Heard(ts[i])
    ensures ReactAll(es) == App(HearAll(ts), false)
  {
    if es != [] {
      TokensOnly(es[..|es| - 1], ts[..|ts| - 1]);
    }
  }

  // ----- The model -----------------------------------------------------------------

  class AppModel {
    var outputText: string
    var thinkingBlocks: seq<AppThinkingBlock>
    var isThinking: bool
    var nextThinkingBlockID: nat
    var hasHandledTerminalEvent: bool
    ghost var events: seq<AppEvent>

    ghost function View(): Screen
      reads this
    {
      Screen(outputText, thinkingBlocks, isThinking, nextThinkingBlockID)
    }

    ghost predicate Valid()
      reads this
    {
      Kept(View()) && App(View(), hasHandledTerminalEvent) == ReactAll(events)
    }

    constructor ()
      ensures Valid() && View() == BLANK && !hasHandledTerminalEvent && events == []
    {
      events := [];
      outputText, thinkingBlocks, isThinking, nextThinkingBlockID := "", [], false, 0;
      hasHandledTerminalEvent := false;
    }

    /** A new run starts from a blank screen. */
    method Run()
      modifies this
      ensures Valid() && View() == BLANK && !hasHandledTerminalEvent && events == []
    {
      events := [];
      outputText, thinkingBlocks, isThinking, nextThinkingBlockID := "", [], false, 0;
      hasHandledTerminalEvent := false;
    }

    method StartThinkingBlock()
      requires Kept(View())
      modifies this`thinkingBlocks, this`isThinking, this`nextThinkingBlockID
      ensures Kept(View()) && View() == StartBlock(old(View())) && isThinking
    {
      if isThinking {
        EndThinkingBlock();
      }
      thinkingBlocks := thinkingBlocks + [AppThinkingBlock(nextThinkingBlockID, "", false)];
      nextThinkingBlockID := nextThinkingBlockID + 1;
      isThinking := true;
    }

    method AppendThinkingText(delta: string)
      requires Kept(View())
      modifies this`thinkingBlocks, this`isThinking, this`nextThinkingBlockID
      ensures Kept(View()) && View() == AppendThinking(old(View()), delta)
    {
      if delta == "" {
        return;
      }
      if !isThinking {
        StartThinkingBlock();
      }
      var index := |thinkingBlocks| - 1;
      thinkingBlocks := thinkingBlocks[index := thinkingBlocks[index].(text := thinkingBlocks[index].text + delta)];
    }

    method EndThinkingBlock()
      requires Kept(View())
      modifies this`thinkingBlocks, this`isThinking
      ensures Kept(View()) && View() == EndBlock(old(View())) && AllComplete(View())
    {
      if !isThinking {
        return;
      }
      var index := |thinkingBlocks| - 1;
      thinkingBlocks := thinkingBlocks[index := thinkingBlocks[index].(isComplete := true)];
      isThinking := false;
    }

    /** One token event. */
    method Apply(token: AppTokenEvent)
      requires Valid()
      modifies this`outputText, this`thinkingBlocks, this`isThinking, this`nextThinkingBlockID, this`events
      ensures Valid() && View() == Hear(old(View()), token) && events == old(events) + [Heard(token)]
    {
      ReactedMore(events, Heard(token));
      events := events + [Heard(token)];
      match token.channel {
        case Content =>
          if isThinking {
            EndThinkingBlock();
          }
          if token.textDelta != "" {
            outputText := outputText + token.textDelta;
          }
        case ReasoningStarted => StartThinkingBlock();
        case Reasoning => AppendThinkingText(token.textDelta);
        case ReasoningEnded => EndThinkingBlock();
      }
    }

    /** The first terminal event closes every block; any later one changes nothing. A run that
        did not fail then shows the answer that was materialized from the mailbox. */
    method Finish(ending: Ending, materialized: string)
      requires Valid()
      modifies this
      ensures Valid() && hasHandledTerminalEvent && events == old(events) + [Over(ending, materialized)]
      ensures old(hasHandledTerminalEvent) ==> View() == old(View())
      ensures !old(hasHandledTerminalEvent) ==>
                && AllComplete(View())
                && Texts(thinkingBlocks) == Texts(old(thinkingBlocks))
                && outputText == if ending == Failed then old(outputText) else materialized
    {
      ReactedMore(events, Over(ending, materialized));
      SettledShows(App(View(), hasHandledTerminalEvent), ending, materialized);
      EndRun(ending, materialized);
      events := events + [Over(ending, materialized)];
    }

    method EndRun(ending: Ending, materialized: string)
      requires Kept(View())
      modifies this`hasHandledTerminalEvent, this`outputText, this`thinkingBlocks, this`isThinking
      ensures App(View(), hasHandledTerminalEvent)
           == Settled(App(old(View()), old(hasHandledTerminalEvent)), ending, materialized)
    {
      if hasHandledTerminalEvent {
        return;
      }
      hasHandledTerminalEvent := true;
      EndThinkingBlock();
      if ending != Failed {
        outputText := materialized;
      }
    }

    /** A broken stream keeps the answer collected so far, then ends the run. */
    method FinishStreamFailure(materialized: string)
      requires Valid()
      modifies this
      ensures Valid() && hasHandledTerminalEvent && events == old(events) + [Broken(materialized)]
      ensures outputText == materialized
      ensures Texts(thinkingBlocks) == Texts(old(thinkingBlocks))
      ensures old(hasHandledTerminalEvent) ==> thinkingBlocks == old(thinkingBlocks) && isThinking == old(isThinking)
      ensures !old(hasHandledTerminalEvent) ==> AllComplete(View())
    {
      ReactedMore(events, Broken(materialized));
      BrokenShows(App(View(), hasHandledTerminalEvent), materialized);
      outputText := materialized;
      EndRun(Failed, materialized);
      events := events + [Broken(materialized)];
    }
  }

  /** A reasoning token that comes after the end of the run opens a block for good: the second
      terminal event does not close it. */
  method LateTokenReopens() returns (model: AppModel)
    ensures model.Valid() && model.hasHandledTerminalEvent && !AllComplete(model.View())
    ensures |model.events| == 3 && !model.events[0].Heard? && !model.events[2].Heard?
  {
    model := new AppModel();
    model.Finish(Finished, "");
    model.Apply(AppTokenEvent(0, "", AppTokenChannel.ReasoningStarted));
    model.Finish(Finished, "");
  }

  // ----- End to end ----------------------------------------------------------------

  lemma OrderlyPrefix(a: seq<Mark>, b: seq<Mark>)
    requires Orderly(a + b)
    ensures Orderly(a)
    ensures b != [] && b[0].Said? ==> !Thinking(a)
  {
    forall i | 0 < i < |a| && a[i].Said? ensures a[i - 1].Said? || a[i - 1].Ended? {
      assert (a + b)[i] == a[i] && (a + b)[i - 1] == a[i - 1];
    }
    if b != [] && b[0].Said? && a != [] {
      assert (a + b)[|a|] == b[0] && (a + b)[|a| - 1] == a[|a| - 1];
    }
  }

  /** The blocks on a screen are the spans of what was said so far. */
  ghost predicate Mirrors(s: Screen, marks: seq<Mark>) {
    Kept(s) && Texts(s.thinkingBlocks) == Spans(marks) && (s.isThinking <==> Thinking(marks))
  }

  lemma MirrorsThrough(s: Screen, marks: seq<Mark>, t: AppTokenEvent)
    requires Mirrors(s, marks) && Honest(t) && t.channel != AppTokenChannel.Content
    ensures Mirrors(Hear(s, t), marks + MarksOf(t))
  {
    HearKeeps(s, t);
    HearTexts(s, t);
    if t.channel == AppTokenChannel.Reasoning {
      SpansOfText(marks, t.textDelta);
    } else {
      assert (marks + MarksOf(t))[..|marks|] == marks;
    }
  }

  /** Outside a thought, content moves nothing, whether it is heard in full, blank or not at all. */
  lemma MirrorsThroughContent(s: Screen, marks: seq<Mark>, t: AppTokenEvent, heard: AppTokenEvent)
    requires Mirrors(s, marks) && Honest(t) && t.channel == heard.channel == AppTokenChannel.Content
    requires !Thinking(marks)
    ensures Mirrors(s, marks + MarksOf(t)) && Mirrors(Hear(s, heard), marks + MarksOf(t))
  {
    SpansOfSaids(marks, t.textDelta);
  }

  /** Throttling content never moves a thinking block. */
  lemma {:induction false} BlocksAreSpans(full: seq<AppTokenEvent>, shown: seq<AppTokenEvent>)
    requires Throttled(full, shown) && AllHonest(full) && Orderly(TokenMarks(full))
    ensures Mirrors(HearAll(shown), TokenMarks(full))
  {
    if full != [] {
      var rest, t := full[..|full| - 1], full[|full| - 1];
      var marks := TokenMarks(rest);
      OrderlyPrefix(marks, MarksOf(t));
      if Throttled(rest, shown) && t.channel == AppTokenChannel.Content {
        BlocksAreSpans(rest, shown);
        MirrorsThroughContent(HearAll(shown), marks, t, t);
      } else {
        var front, heard := shown[..|shown| - 1], shown[|shown| - 1];
        BlocksAreSpans(rest, front);
        if t.channel == AppTokenChannel.Content {
          MirrorsThroughContent(HearAll(front), marks, t, heard);
        } else {
          MirrorsThrough(HearAll(front), marks, t);
        }
      }
    }
  }

  lemma {:induction false} RunsJoinToMusings(runs: seq<Run>)
    ensures Joined(ThoughtRuns(runs)) == Musings(runs)
  {
    if runs != [] {
      var rest, run := ThoughtRuns(runs[..|runs| - 1]), Last(runs);
      RunsJoinToMusings(runs[..|runs| - 1]);
      JoinedMore(rest, run.text);
      assert rest + [] == rest && Joined(rest) + "" == Joined(rest);
      assert |runs| == 1 ==> rest == [];
    }
  }

  /** A stream that says a reply, throttled, puts that reply on the screen. */
  lemma ReplyOnScreen(reply: seq<Run>, stream: seq<AppTokenEvent>, shown: seq<AppTokenEvent>)
    requires reply != [] && forall i :: 0 < i < |reply| ==> reply[i].kind != Plain
    requires TokenMarks(stream) == Render(reply) && AllHonest(stream) && Throttled(stream, shown)
    ensures ContentText(stream) == Answer(reply)
    ensures Texts(HearAll(shown).thinkingBlocks) == ThoughtRuns(reply)
    ensures Joined(Texts(HearAll(shown).thinkingBlocks)) == Musings(reply)
    ensures HearAll(shown).isThinking <==>
              Last(reply).kind == Musing && (|reply| > 1 || Last(reply).text != "")
  {
    RenderKeepsBothTexts(reply);
    TextsOfTokens(stream);
    RenderIsOrderly(reply);
    BlocksAreSpans(stream, shown);
    SpansAreThoughtRuns(reply);
    RunsJoinToMusings(reply);
  }

  /** The session, the outbox, the client and the screen together. A reply with no tool marker
      is all that was generated. */
  lemma EndToEnd(session: RealInferenceSession, outbox: DecodeServiceOutbox, client: DecodeServiceInferenceClient)
    requires session.Valid() && outbox.Valid() && client.Valid()
    requires outbox.published == session.yielded
    requires client.frames == outbox.written && outbox.pendingTokens == [] && outbox.takenTokens == []
    ensures
      var reply := Runs(session.decoder.first, session.decoder.seen);
      var screen := HearAll(client.yielded);
      && (session.toolFree ==> reply == Runs(session.decoder.first, session.fed))
      && client.generationTranscriptMailbox == Answer(reply)
      && Texts(screen.thinkingBlocks) == ThoughtRuns(reply)
      && Joined(Texts(screen.thinkingBlocks)) == Musings(reply)
      && (screen.isThinking <==>
            Last(reply).kind == Musing && (|reply| > 1 || Last(reply).text != ""))
  {
    var decoder := session.decoder;
    AllDelivered(outbox);
    UnsealReply(decoder.first, decoder.seen, decoder.emitted,
                Place(decoder.channel, decoder.reasoning, decoder.trimmingLeadingNewlines));
    ReplyOnScreen(Runs(decoder.first, decoder.seen), session.yielded, client.yielded);
  }

  /** The screen of `EndToEnd` is that of a model that heard what the client passed on. */
  lemma ScreenOfModel(client: DecodeServiceInferenceClient, model: AppModel)
    requires model.Valid() && |model.events| == |client.yielded|
    requires forall i :: 0 <= i < |model.events| ==> model.events[i] == Heard(client.yielded[i])
    ensures model.View() == HearAll(client.yielded)
  {
    TokensOnly(model.events, client.yielded);
  }

  lemma {:induction false} TokensOfPrefix(frames: seq<Frame>, n: nat)
    requires n <= |frames|
    ensures Tokens(frames[..n]) <= Tokens(frames)
  {
    if n == |frames| {
      assert frames[..n] == frames;
    } else {
      var m := |frames| - 1;
      TokensOfPrefix(frames[..m], n);
      assert frames[..m][..n] == frames[..n];
    }
  }

  lemma {:induction false} ContentOfPrefix(ts: seq<AppTokenEvent>, n: nat)
    requires n <= |ts|
    ensures ContentText(ts[..n]) <= ContentText(ts)
  {
    if n == |ts| {
      assert ts[..n] == ts;
    } else {
      var m := |ts| - 1;
      ContentOfPrefix(ts[..m], n);
      assert ts[..m][..n] == ts[..n];
    }
  }

  lemma StartOfAnswer(reply: seq<Run>, stream: seq<AppTokenEvent>, heard: seq<AppTokenEvent>)
    requires reply != [] && TokenMarks(stream) == Render(reply) && heard <= stream
    ensures ContentText(heard) <= Answer(reply)
  {
    RenderKeepsBothTexts(reply);
    TextsOfTokens(stream);
    ContentOfPrefix(stream, |heard|);
    assert stream[..|heard|] == heard;
  }

  /** At every moment before that, what the app has collected is the start of the answer. */
  lemma AnswerSoFar(session: RealInferenceSession, outbox: DecodeServiceOutbox, client: DecodeServiceInferenceClient)
    requires session.Valid() && outbox.Valid() && client.Valid()
    requires outbox.published <= session.yielded && client.frames <= outbox.written
    ensures client.generationTranscriptMailbox
         <= Answer(Runs(session.decoder.first, session.decoder.seen))
    ensures session.toolFree ==> session.decoder.seen == session.fed
  {
    var decoder, heard := session.decoder, Tokens(client.frames);
    UnsealReply(decoder.first, decoder.seen, decoder.emitted,
                Place(decoder.channel, decoder.reasoning, decoder.trimmingLeadingNewlines));
    DeliveredSoFar(outbox);
    TokensOfPrefix(outbox.written, |client.frames|);
    assert outbox.written[..|client.frames|] == client.frames;
    StartOfAnswer(Runs(decoder.first, decoder.seen), session.yielded, heard);
  }
}

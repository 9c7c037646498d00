/** The streaming decoder that keeps a model's reasoning out of its answer (ChatML dialect),
    and the session code that turns its events into app events.

    The decoder sees the reply in pieces. It is proved to emit, after any pieces, exactly the
    marks of the whole reply so far (`Transcript.Render`), so how the text was cut never
    shows. Tool-call spans belong to code outside the model: `ToolToken` leaves them open. */
module AssistantDecoder {
  import opened Options
  import opened Seals
  import opened Transcript
  import opened TokenEvents

  /** ToolMarker: any token that opens a tool-call span. */
  datatype Token = ThinkStart | ThinkEnd | ToolMarker | Other

  datatype AssistantEvent =
    | Content(delta: string)
    | ReasoningStarted
    | Reasoning(delta: string)
    | ReasoningEnded
    | ToolCall

  datatype Result<+T> = Ok(value: T) | Err

  /** The text detokenized for a think token or a tool marker itself is never shown. */
  function Symbols(token: Token, delta: string): seq<Symbol> {
    match token
    case ThinkStart => [Open]
    case ThinkEnd => [Close]
    case ToolMarker => []
    case Other => Chars(delta)
  }

  function EventMarks(e: AssistantEvent): seq<Mark> {
    match e
    case Content(delta) => Saids(delta)
    case ReasoningStarted => [Started]
    case Reasoning(delta) => Thoughts(delta)
    case ReasoningEnded => [Ended]
    case ToolCall => []
  }

  function Marks(events: seq<AssistantEvent>): seq<Mark> {
    if events == [] then [] else Marks(events[..|events| - 1]) + EventMarks(events[|events| - 1])
  }

  lemma MarksOfOne(e: AssistantEvent)
    ensures Marks([e]) == EventMarks(e)
  {
    assert [e][..0] == [];
  }

  /** Text events carry text. */
  predicate Plainly(e: AssistantEvent) {
    && (e.Content? ==> e.delta != "")
    && (e.Reasoning? ==> e.delta != "")
  }

  predicate NoCalls(events: seq<AssistantEvent>) {
    forall i :: 0 <= i < |events| ==> !events[i].ToolCall?
  }

  predicate AllPlain(events: seq<AssistantEvent>) {
    forall i :: 0 <= i < |events| ==> Plainly(events[i])
  }

  lemma {:induction false} CallsSayNothing(events: seq<AssistantEvent>)
    requires forall i :: 0 <= i < |events| ==> events[i].ToolCall?
    ensures Marks(events) == []
  {
    if events != [] {
      CallsSayNothing(events[..|events| - 1]);
    }
  }

  lemma MusingsOfText(runs: seq<Run>, text: string)
    requires runs != []
    ensures Musings(Extend(runs, text)) == Musings(runs) + if Last(runs).kind == Musing then text else ""
  {
    assert Extend(runs, text)[..|runs| - 1] == runs[..|runs| - 1];
    if Last(runs).kind == Musing {
      var before := Musings(runs[..|runs| - 1]);
      assert before + (Last(runs).text + text) == (before + Last(runs).text) + text;
    }
  }

  lemma MusingsOfToken(runs: seq<Run>, kind: Kind)
    ensures Musings(runs + [Run(kind, "")]) == Musings(runs)
  {
    assert (runs + [Run(kind, "")])[..|runs|] == runs;
  }

  // ----- The decoder ---------------------------------------------------------------

  datatype Channel = InThought | Visible

  /** Where a decoder is: the fields that decide what it does with the next piece. */
  datatype Place = Place(channel: Channel, reasoning: string, trimming: bool)

  /** A decoder in this place has been fed a reply with these runs. */
  ghost predicate Follows(runs: seq<Run>, place: Place)
    requires runs != []
  {
    && place.reasoning == Musings(runs)
    && (place.channel == InThought <==> Last(runs).kind == Musing)
    && (Last(runs).kind != Musing ==>
          (place.trimming <==> Last(runs).kind == Trimmed && DropNewlines(Last(runs).text) == ""))
  }

  ghost predicate Tracks(first: Kind, seen: seq<Symbol>, emitted: seq<Mark>, place: Place) {
    emitted == Render(Runs(first, seen)) && Follows(Runs(first, seen), place)
  }

  /** A decoder in this place has emitted exactly the marks of the reply it was fed. Sealed,
      so that proofs about the class do not unfold it; UnsealReply gives it back. */
  ghost predicate Faithful(first: Kind, seen: seq<Symbol>, emitted: seq<Mark>, place: Place) {
    forall key {:trigger Unsealed(key)} :: Unsealed(key) ==> Tracks(first, seen, emitted, place)
  }

  lemma UnsealReply(first: Kind, seen: seq<Symbol>, emitted: seq<Mark>, place: Place)
    requires Faithful(first, seen, emitted, place)
    ensures Tracks(first, seen, emitted, place)
  {
    assert Unsealed(0);
  }

  lemma Begun(first: Kind)
    requires first != Trimmed
    ensures Faithful(first, [], [], Place(if first == Musing then InThought else Visible, "", false))
  {
    assert Runs(first, []) == [Run(first, "")];
    assert [Run(first, "")][..0] == [];
  }

  /** The event for some text, if there is any. */
  function ThoughtEvents(delta: string): (events: seq<AssistantEvent>)
    ensures NoCalls(events) && AllPlain(events) && |events| <= 1
  {
    if delta == "" then [] else [AssistantEvent.Reasoning(delta)]
  }

  function AnswerEvents(visible: string): (events: seq<AssistantEvent>)
    ensures NoCalls(events) && AllPlain(events) && |events| <= 1
  {
    if visible == "" then [] else [AssistantEvent.Content(visible)]
  }

  lemma EventsSayText(text: string)
    ensures Marks(ThoughtEvents(text)) == Thoughts(text)
    ensures Marks(AnswerEvents(text)) == Saids(text)
  {
    MarksOfOne(AssistantEvent.Reasoning(text));
    MarksOfOne(AssistantEvent.Content(text));
  }

  lemma FaithfulThought(first: Kind, seen: seq<Symbol>, emitted: seq<Mark>, place: Place, delta: string)
    requires Faithful(first, seen, emitted, place) && place.channel == InThought
    ensures Faithful(first, seen + Chars(delta), emitted + Marks(ThoughtEvents(delta)),
                     place.(reasoning := place.reasoning + delta))
  {
    UnsealReply(first, seen, emitted, place);
    var runs := Runs(first, seen);
    RunsOfText(first, seen, delta);
    RenderOfText(runs, delta);
    MusingsOfText(runs, delta);
    EventsSayText(delta);
  }

  /** What a visible piece shows. */
  function Visibly(trimming: bool, delta: string): string {
    if trimming then DropNewlines(delta) else delta
  }

  lemma FollowsAnswer(runs: seq<Run>, place: Place, delta: string)
    requires runs != [] && Follows(runs, place) && place.channel == Visible
    ensures Follows(Extend(runs, delta), place.(trimming := place.trimming && Visibly(place.trimming, delta) == ""))
    ensures Added(Last(runs), delta) == Saids(Visibly(place.trimming, delta))
  {
    MusingsOfText(runs, delta);
    DropNewlinesOfSum(Last(runs).text, delta);
  }

  lemma FaithfulAnswer(first: Kind, seen: seq<Symbol>, emitted: seq<Mark>, place: Place, delta: string)
    requires Faithful(first, seen, emitted, place) && place.channel == Visible
    ensures
      var visible := Visibly(place.trimming, delta);
      Faithful(first, seen + Chars(delta), emitted + Marks(AnswerEvents(visible)),
               place.(trimming := place.trimming && visible == ""))
  {
    UnsealReply(first, seen, emitted, place);
    var runs := Runs(first, seen);
    RunsOfText(first, seen, delta);
    RenderOfText(runs, delta);
    FollowsAnswer(runs, place, delta);
    EventsSayText(Visibly(place.trimming, delta));
  }

  function ThinkEvent(token: Token): AssistantEvent {
    if token == ThinkStart then AssistantEvent.ReasoningStarted else AssistantEvent.ReasoningEnded
  }

  lemma FollowsToken(runs: seq<Run>, place: Place, token: Token)
    requires runs != [] && Follows(runs, place) && (token == ThinkStart || token == ThinkEnd)
    ensures
      var place' := if token == ThinkStart then place.(channel := InThought)
                    else place.(channel := Visible, trimming := true);
      Follows(runs + [Run(Begins(if token == ThinkStart then Open else Close), "")], place')
  {
    MusingsOfToken(runs, Begins(if token == ThinkStart then Open else Close));
  }

  lemma FaithfulToken(
    first: Kind, seen: seq<Symbol>, emitted: seq<Mark>, place: Place, token: Token, delta: string)
    requires Faithful(first, seen, emitted, place) && (token == ThinkStart || token == ThinkEnd)
    ensures
      var place' := if token == ThinkStart then place.(channel := InThought)
                    else place.(channel := Visible, trimming := true);
      Faithful(first, seen + Symbols(token, delta), emitted + Marks([ThinkEvent(token)]), place')
  {
    UnsealReply(first, seen, emitted, place);
    var runs, symbol := Runs(first, seen), if token == ThinkStart then Open else Close;
    var place' := if token == ThinkStart then place.(channel := InThought)
                  else place.(channel := Visible, trimming := true);
    FollowsToken(runs, place, token);
    RunsOfToken(first, seen, symbol);
    RenderOfToken(runs, Begins(symbol));
    MarksOfOne(ThinkEvent(token));
    assert Symbols(token, delta) == [symbol];
    assert Tracks(first, seen + [symbol], emitted + Marks([ThinkEvent(token)]), place');
  }

  class StructuredAssistantDecoder {
    const first: Kind
    var channel: Channel
    var reasoning: string
    var reasoningTokenCount: nat
    var trimmingLeadingNewlines: bool
    var failed: bool
    var inToolSpan: bool

    ghost var seen: seq<Symbol>
    ghost var emitted: seq<Mark>

    ghost predicate Valid()
      reads this
    {
      Faithful(first, seen, emitted, Place(channel, reasoning, trimmingLeadingNewlines))
    }

    constructor (thinkingPreopened: bool)
      ensures Valid() && seen == [] && emitted == [] && reasoningTokenCount == 0
      ensures !failed && !inToolSpan && first == if thinkingPreopened then Musing else Plain
    {
      first := if thinkingPreopened then Musing else Plain;
      channel := if thinkingPreopened then InThought else Visible;
      reasoning := "";
      reasoningTokenCount := 0;
      trimmingLeadingNewlines := false;
      failed := false;
      inToolSpan := false;
      seen := [];
      emitted := [];
      Begun(if thinkingPreopened then Musing else Plain);
    }

    method AcceptThought(delta: string) returns (events: seq<AssistantEvent>)
      requires Valid() && channel == InThought
      modifies this`reasoning, this`seen, this`emitted
      ensures Valid() && seen == old(seen) + Chars(delta)
      ensures emitted == old(emitted) + Marks(events)
      ensures NoCalls(events) && AllPlain(events) && |events| <= 1
    {
      FaithfulThought(first, seen, emitted, Place(channel, reasoning, trimmingLeadingNewlines), delta);
      events := ThoughtEvents(delta);
      reasoning := reasoning + delta;
      seen := seen + Chars(delta);
      emitted := emitted + Marks(events);
    }

    /** Drops the newlines an answer starts with, until there is something else. */
    method Trim(delta: string) returns (visible: string)
      modifies this`trimmingLeadingNewlines
      ensures visible == Visibly(old(trimmingLeadingNewlines), delta)
      ensures trimmingLeadingNewlines == (old(trimmingLeadingNewlines) && visible == "")
    {
      visible := delta;
      if trimmingLeadingNewlines {
        visible := DropNewlines(visible);
        if visible != "" {
          trimmingLeadingNewlines := false;
        }
      }
    }

    method AcceptAnswer(delta: string) returns (events: seq<AssistantEvent>)
      requires Valid() && channel == Visible
      modifies this`trimmingLeadingNewlines, this`seen, this`emitted
      ensures Valid() && seen == old(seen) + Chars(delta)
      ensures emitted == old(emitted) + Marks(events)
      ensures NoCalls(events) && AllPlain(events) && |events| <= 1
    {
      FaithfulAnswer(first, seen, emitted, Place(channel, reasoning, trimmingLeadingNewlines), delta);
      var visible := Trim(delta);
      events := AnswerEvents(visible);
      seen := seen + Chars(delta);
      emitted := emitted + Marks(events);
    }

    /** Text for the active channel: the shared end of the two public methods. */
    method Accept(delta: string) returns (events: seq<AssistantEvent>)
      requires Valid()
      modifies this`reasoning, this`trimmingLeadingNewlines, this`seen, this`emitted
      ensures Valid() && seen == old(seen) + Chars(delta)
      ensures emitted == old(emitted) + Marks(events)
      ensures NoCalls(events) && AllPlain(events) && |events| <= 1
    {
      if channel == InThought {
        events := AcceptThought(delta);
      } else {
        events := AcceptAnswer(delta);
      }
    }

    /** One generated token outside any tool span. */
    method Consume(token: Token, delta: string) returns (events: seq<AssistantEvent>)
      requires Valid() && !failed && !inToolSpan && token != ToolMarker
      modifies this`channel, this`reasoning, this`reasoningTokenCount, this`trimmingLeadingNewlines,
               this`seen, this`emitted
      ensures Valid() && seen == old(seen) + Symbols(token, delta)
      ensures emitted == old(emitted) + Marks(events)
      ensures NoCalls(events) && AllPlain(events) && |events| <= 1
      ensures reasoningTokenCount == old(reasoningTokenCount)
                + if token == Other && old(channel) == InThought then 1 else 0
    {
      if token == Other {
        if channel == InThought {
          reasoningTokenCount := reasoningTokenCount + 1;
        }
        events := Accept(delta);
      } else {
        events := ConsumeThink(token, delta);
      }
    }

    /** A think token switches the channel, whatever text came with it. */
    method ConsumeThink(token: Token, delta: string) returns (events: seq<AssistantEvent>)
      requires Valid() && (token == ThinkStart || token == ThinkEnd)
      modifies this`channel, this`trimmingLeadingNewlines, this`seen, this`emitted
      ensures Valid() && seen == old(seen) + Symbols(token, delta)
      ensures emitted == old(emitted) + Marks(events)
      ensures NoCalls(events) && AllPlain(events) && |events| <= 1
    {
      events := [ThinkEvent(token)];
      FaithfulToken(first, seen, emitted, Place(channel, reasoning, trimmingLeadingNewlines), token, delta);
      seen := seen + Symbols(token, delta);
      emitted := emitted + Marks(events);
      if token == ThinkStart {
        channel := InThought;
      } else {
        channel := Visible;
        trimmingLeadingNewlines := true;
      }
    }

    /** Text the detokenizer still held back at a stop boundary. */
    method ConsumeTrailingText(delta: string) returns (r: Result<seq<AssistantEvent>>)
      requires Valid()
      modifies this`reasoning, this`trimmingLeadingNewlines, this`seen, this`emitted
      ensures Valid() && (r.Err? <==> failed || inToolSpan)
      ensures r.Err? ==> seen == old(seen) && emitted == old(emitted)
      ensures r.Ok? ==> seen == old(seen) + Chars(delta) && emitted == old(emitted) + Marks(r.value)
      ensures r.Ok? ==> NoCalls(r.value) && AllPlain(r.value) && |r.value| <= 1
    {
      if failed || inToolSpan {
        return Err;
      }
      var events := Accept(delta);
      return Ok(events);
    }

    /** A token the tool-call code takes: it may open or close a span, emit calls or fail. */
    method ToolToken() returns (r: Result<seq<AssistantEvent>>)
      requires Valid()
      modifies this`failed, this`inToolSpan
      ensures Valid()
      ensures r.Ok? ==> AllPlain(r.value) && Marks(r.value) == []
      ensures r.Ok? ==> r.value == [] || !NoCalls(r.value)
    {
      failed := *;
      inToolSpan := *;
      var throws: bool := *;
      if throws {
        return Err;
      }
      var n: int := *;
      var calls: seq<AssistantEvent> := if n < 0 then [] else seq(n, _ => ToolCall);
      CallsSayNothing(calls);
      assert calls == [] || calls[0].ToolCall?;
      return Ok(calls);
    }
  }

  /** Chunk invariance: two decoders that were fed the same reply, cut in any two ways, have
      emitted the same marks and collected the same reasoning. */
  lemma ChunksDoNotShow(a: StructuredAssistantDecoder, b: StructuredAssistantDecoder)
    requires a.Valid() && b.Valid() && a.first == b.first && a.seen == b.seen
    ensures a.emitted == b.emitted && a.reasoning == b.reasoning && a.reasoning == ThoughtText(b.emitted)
  {
    UnsealReply(a.first, a.seen, a.emitted, Place(a.channel, a.reasoning, a.trimmingLeadingNewlines));
    UnsealReply(b.first, b.seen, b.emitted, Place(b.channel, b.reasoning, b.trimmingLeadingNewlines));
    RenderKeepsBothTexts(Runs(a.first, a.seen));
  }

  /** After a think-end, any text up to the next think-start says itself, less the newlines it
      starts with. */
  lemma AnswerAfterThinking(first: Kind, before: seq<Symbol>, text: string)
    ensures
      var said := Render(Runs(first, before + [Close]));
      && Render(Runs(first, before + [Close] + Chars(text))) == said + Saids(DropNewlines(text))
      && SaidText(said + Saids(DropNewlines(text))) == SaidText(said) + DropNewlines(text)
  {
    var runs := Runs(first, before) + [Run(Trimmed, "")];
    RunsOfToken(first, before, Close);
    RunsOfText(first, before + [Close], text);
    RenderOfText(runs, text);
    TextOfText(DropNewlines(text));
    TextOfSum(Render(runs), Saids(DropNewlines(text)));
  }

  // ----- App events -----------------------------------------------------------------

  function AppToken(e: AssistantEvent, index: nat): AppTokenEvent
    requires !e.ToolCall?
  {
    match e
    case Content(delta) => AppTokenEvent(index, delta, AppTokenChannel.Content)
    case ReasoningStarted => AppTokenEvent(index, "", AppTokenChannel.ReasoningStarted)
    case Reasoning(delta) => AppTokenEvent(index, delta, AppTokenChannel.Reasoning)
    case ReasoningEnded => AppTokenEvent(index, "", AppTokenChannel.ReasoningEnded)
  }

  /** `result` carries the first i events, one for one. */
  ghost predicate Translated(events: seq<AssistantEvent>, index: nat, i: nat, result: seq<AppTokenEvent>)
    requires i <= |events|
  {
    && |result| == i
    && forall j :: 0 <= j < i ==> !events[j].ToolCall? && result[j] == AppToken(events[j], index)
  }

  lemma AppTokenSaysTheSame(e: AssistantEvent, index: nat)
    requires !e.ToolCall?
    ensures MarksOf(AppToken(e, index)) == EventMarks(e)
    ensures Plainly(e) ==> Honest(AppToken(e, index))
  {
  }

  lemma {:induction false} TranslationSaysTheSame(
    events: seq<AssistantEvent>, index: nat, result: seq<AppTokenEvent>)
    requires Translated(events, index, |events|, result)
    ensures TokenMarks(result) == Marks(events)
  {
    if events != [] {
      var n := |events| - 1;
      var front, before := events[..n], result[..n];
      assert Translated(front, index, |front|, before);
      TranslationSaysTheSame(front, index, before);
      AppTokenSaysTheSame(events[n], index);
    }
  }

  lemma TranslationIsHonest(events: seq<AssistantEvent>, index: nat, result: seq<AppTokenEvent>)
    requires Translated(events, index, |events|, result)
    ensures NoCalls(events) && (AllPlain(events) ==> AllHonest(result))
  {
    if AllPlain(events) {
      forall i | 0 <= i < |result| ensures Honest(result[i]) {
        AppTokenSaysTheSame(events[i], index);
      }
    }
  }

  /** Nothing comes out if a tool call is among the events, even one after good events. */
  method AppTokenEvents(events: seq<AssistantEvent>, index: nat) returns (r: Result<seq<AppTokenEvent>>)
    ensures r.Ok? <==> NoCalls(events)
    ensures r.Ok? ==> TokenMarks(r.value) == Marks(events)
    ensures r.Ok? && AllPlain(events) ==> AllHonest(r.value)
    ensures r.Ok? ==> |r.value| == |events| && forall t <- r.value :: t.index == index
  {
    var result: seq<AppTokenEvent> := [];
    for i := 0 to |events|
      invariant Translated(events, index, i, result)
    {
      if events[i].ToolCall? {
        return Err;
      }
      result := result + [AppToken(events[i], index)];
    }
    TranslationSaysTheSame(events, index, result);
    TranslationIsHonest(events, index, result);
    return Ok(result);
  }

  // ----- The session ----------------------------------------------------------------

  /** The event handler of one generation, with the stream it yields to. */
  class RealInferenceSession {
    const decoder: StructuredAssistantDecoder
    var decodingError: bool
    var generated: nat
    var yielded: seq<AppTokenEvent>

    /** All that was generated, and whether no tool marker was in it. */
    ghost var fed: seq<Symbol>
    ghost var toolFree: bool

    /** The stream says exactly what the decoder was given. */
    ghost predicate Says()
      reads this, decoder
    {
      decoder.Valid() && TokenMarks(yielded) == decoder.emitted && AllHonest(yielded)
    }

    /** Without tool markers the decoder was given all that was generated. */
    ghost predicate Valid()
      reads this, decoder
    {
      && Says()
      && (toolFree ==> decoder.seen == fed && !decoder.failed && !decoder.inToolSpan && !decodingError)
    }

    constructor (thinkingPreopened: bool)
      ensures Valid() && fresh(decoder) && !decodingError && yielded == [] && generated == 0
      ensures fed == [] && toolFree && decoder.first == if thinkingPreopened then Musing else Plain
    {
      fed, toolFree := [], true;
      decoder := new StructuredAssistantDecoder(thinkingPreopened);
      decodingError := false;
      generated := 0;
      yielded := [];
    }

    /** Yields what the decoder made of one piece, or remembers the failure. */
    method Yield(events: Result<seq<AssistantEvent>>, index: nat)
      requires decoder.Valid() && AllHonest(yielded) && !decodingError
      requires events.Ok? ==> AllPlain(events.value) && (NoCalls(events.value) || Marks(events.value) == [])
      requires decoder.emitted == TokenMarks(yielded) + if events.Ok? then Marks(events.value) else []
      modifies this`decodingError, this`yielded
      ensures Says() && old(yielded) <= yielded
      ensures decodingError <==> events.Err? || !NoCalls(events.value)
      ensures decodingError ==> yielded == old(yielded)
      ensures forall i :: |old(yielded)| <= i < |yielded| ==> yielded[i].index == index
      ensures !decodingError ==> |yielded| == |old(yielded)| + |events.value|
    {
      if events.Err? {
        decodingError := true;
        return;
      }
      var r := AppTokenEvents(events.value, index);
      if r.Err? {
        decodingError := true;
        return;
      }
      TokenMarksOfSum(yielded, r.value);
      yielded := yielded + r.value;
    }

    /** The decoder, or the tool-call code, gets one token. */
    method Feed(token: Token, delta: string) returns (r: Result<seq<AssistantEvent>>, ghost tool: bool)
      requires decoder.Valid()
      modifies decoder
      ensures decoder.Valid()
      ensures tool <==> token == ToolMarker || old(decoder.failed) || old(decoder.inToolSpan)
      ensures tool && r.Ok? ==> AllPlain(r.value) && Marks(r.value) == [] && (r.value == [] || !NoCalls(r.value))
      ensures tool ==> decoder.seen == old(decoder.seen) && decoder.emitted == old(decoder.emitted)
      ensures !tool ==> r.Ok? && AllPlain(r.value) && NoCalls(r.value) && |r.value| <= 1
      ensures !tool ==> !decoder.failed && !decoder.inToolSpan
      ensures !tool ==> decoder.seen == old(decoder.seen) + Symbols(token, delta)
      ensures !tool ==> decoder.emitted == old(decoder.emitted) + Marks(r.value)
    {
      tool := token == ToolMarker || decoder.failed || decoder.inToolSpan;
      if token == ToolMarker || decoder.failed || decoder.inToolSpan {
        r := decoder.ToolToken();
      } else {
        var events := decoder.Consume(token, delta);
        r := Ok(events);
      }
    }

    /** One generated token. `tool` says that the tool-call code took it: only a tool marker,
        and what follows one while its span is open or has failed. */
    method OnToken(index: nat, token: Token, delta: string) returns (ghost tool: bool)
      requires Valid()
      modifies this, decoder
      ensures Valid() && old(yielded) <= yielded
      ensures decoder.seen == old(decoder.seen) + if old(decodingError) || tool then [] else Symbols(token, delta)
      ensures old(decodingError) ==> decodingError && yielded == old(yielded) && generated == old(generated)
      ensures !old(decodingError) && !tool ==> !decodingError && generated == index + 1
      ensures !tool ==> |yielded| <= |old(yielded)| + 1
      ensures tool <==>
                && !old(decodingError)
                && (token == ToolMarker || old(decoder.failed) || old(decoder.inToolSpan))
      ensures forall i :: |old(yielded)| <= i < |yielded| ==> yielded[i].index == index
      ensures fed == old(fed) + Symbols(token, delta) && toolFree == (old(toolFree) && token != ToolMarker)
    {
      tool := false;
      fed, toolFree := fed + Symbols(token, delta), toolFree && token != ToolMarker;
      if decodingError {
        return;
      }
      var r;
      r, tool := Feed(token, delta);
      if r.Ok? {
        generated := index + 1;
      }
      Yield(r, index);
    }

    /** The text left over at the end, under the index of the last token. */
    method OnTail(text: string)
      requires Valid()
      modifies this, decoder
      ensures Valid() && old(yielded) <= yielded
      ensures decodingError <==> old(decodingError || decoder.failed || decoder.inToolSpan)
      ensures decoder.seen == old(decoder.seen) + if decodingError then [] else Chars(text)
      ensures (decodingError ==> yielded == old(yielded)) && |yielded| <= |old(yielded)| + 1
      ensures forall i :: |old(yielded)| <= i < |yielded| ==>
                yielded[i].index == if generated == 0 then 0 else generated - 1
      ensures generated == old(generated)
      ensures fed == old(fed) + Chars(text) && toolFree == old(toolFree)
    {
      fed := fed + Chars(text);
      if decodingError {
        return;
      }
      var r := decoder.ConsumeTrailingText(text);
      Yield(r, if generated == 0 then 0 else generated - 1);
    }
  }
}

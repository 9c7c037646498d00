/** The token events that travel from the inference session to the app, and what they say. */
module TokenEvents {
  import opened Options
  import opened Transcript

  datatype AppTokenChannel = Content | ReasoningStarted | Reasoning | ReasoningEnded

  datatype AppTokenEvent = AppTokenEvent(index: nat, textDelta: string, channel: AppTokenChannel)

  function RawValue(channel: AppTokenChannel): string {
    match channel
    case Content => "content"
    case ReasoningStarted => "reasoning-started"
    case Reasoning => "reasoning"
    case ReasoningEnded => "reasoning-ended"
  }

  function FromRawValue(raw: string): Option<AppTokenChannel> {
    if raw == "content" then Some(Content)
    else if raw == "reasoning-started" then Some(ReasoningStarted)
    else if raw == "reasoning" then Some(AppTokenChannel.Reasoning)
    else if raw == "reasoning-ended" then Some(ReasoningEnded)
    else None
  }

  lemma RawValueRoundTrip(channel: AppTokenChannel)
    ensures FromRawValue(RawValue(channel)) == Some(channel)
  {
    assert |RawValue(Content)| == 7 && |RawValue(ReasoningStarted)| == 17;
    assert |RawValue(AppTokenChannel.Reasoning)| == 9 && |RawValue(ReasoningEnded)| == 15;
  }

  lemma OnlyItsOwnName(raw: string)
    ensures FromRawValue(raw).Some? ==> raw == RawValue(FromRawValue(raw).value)
  {
  }

  function MarksOf(t: AppTokenEvent): seq<Mark> {
    match t.channel
    case Content => Saids(t.textDelta)
    case ReasoningStarted => [Started]
    case Reasoning => Thoughts(t.textDelta)
    case ReasoningEnded => [Ended]
  }

  /** What a stream of events says, whatever its chunks. */
  function TokenMarks(ts: seq<AppTokenEvent>): seq<Mark> {
    if ts == [] then [] else TokenMarks(ts[..|ts| - 1]) + MarksOf(ts[|ts| - 1])
  }

  function ContentText(ts: seq<AppTokenEvent>): string {
    if ts == [] then ""
    else
      var t := ts[|ts| - 1];
      ContentText(ts[..|ts| - 1]) + if t.channel == Content then t.textDelta else ""
  }

  function ReasoningText(ts: seq<AppTokenEvent>): string {
    if ts == [] then ""
    else
      var t := ts[|ts| - 1];
      ReasoningText(ts[..|ts| - 1]) + if t.channel == AppTokenChannel.Reasoning then t.textDelta else ""
  }

  /** The events a session produces: text only where there is some, and none on markers. */
  predicate Honest(t: AppTokenEvent) {
    t.channel == Content || t.channel == AppTokenChannel.Reasoning <==> t.textDelta != ""
  }

  ghost predicate AllHonest(ts: seq<AppTokenEvent>) {
    forall i :: 0 <= i < |ts| ==> Honest(ts[i])
  }

  lemma {:induction false} TokenMarksOfSum(a: seq<AppTokenEvent>, b: seq<AppTokenEvent>)
    ensures TokenMarks(a + b) == TokenMarks(a) + TokenMarks(b)
  {
    if b == [] {
      assert a + b == a;
    } else {
      var front, t := b[..|b| - 1], b[|b| - 1];
      TokenMarksOfSum(a, front);
      assert (a + b)[..|a + b| - 1] == a + front && (a + b)[|a + b| - 1] == t;
      assert TokenMarks(a) + TokenMarks(front) + MarksOf(t) == TokenMarks(a) + (TokenMarks(front) + MarksOf(t));
    }
  }

  lemma TextOfMarks(t: AppTokenEvent)
    ensures SaidText(MarksOf(t)) == if t.channel == Content then t.textDelta else ""
    ensures ThoughtText(MarksOf(t)) == if t.channel == AppTokenChannel.Reasoning then t.textDelta else ""
  {
    TextOfText(t.textDelta);
    assert [Started][..0] == [] && [Ended][..0] == [];
  }

  lemma {:induction false} TextsOfTokens(ts: seq<AppTokenEvent>)
    ensures SaidText(TokenMarks(ts)) == ContentText(ts)
    ensures ThoughtText(TokenMarks(ts)) == ReasoningText(ts)
  {
    if ts != [] {
      TextsOfTokens(ts[..|ts| - 1]);
      TextOfSum(TokenMarks(ts[..|ts| - 1]), MarksOf(ts[|ts| - 1]));
      TextOfMarks(ts[|ts| - 1]);
    }
  }
}

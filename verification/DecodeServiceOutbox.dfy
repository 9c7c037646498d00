/** The outbox between the inference session and the pipe to the app.

    One thread publishes events under a lock; another drains: it takes everything pending
    under the same lock, numbers it, and writes it out with the lock released. Each method
    below is one atomic step of one of the two threads, so every interleaving is a sequence of
    calls, and what `Valid` says holds after every one of them. */
module Outbox {
  import opened Options
  import opened TokenEvents

  datatype PrefillProgress = PrefillProgress(done: int, total: int)

  datatype Ending = Finished | Cancelled | Failed

  datatype AppInferenceEvent =
    | Prefill(progress: PrefillProgress)
    | Token(token: AppTokenEvent)
    | Terminal(ending: Ending)

  /** What goes over the wire. */
  datatype Frame =
    | PrefillFrame(sequence: nat, progress: PrefillProgress)
    | Snapshot(sequence: nat, textDelta: string, tokenChannel: Option<string>, tokenCount: int)

  datatype Numbered<T> = Numbered(sequence: nat, item: T)

  // ----- The wire ------------------------------------------------------------------

  function Encode(n: Numbered<AppTokenEvent>): Frame {
    Snapshot(n.sequence, n.item.textDelta, Some(RawValue(n.item.channel)), n.item.index + 1)
  }

  /** How the app reads a snapshot: no channel, or one it does not know, means content. */
  function Decode(f: Frame): AppTokenEvent
    requires f.Snapshot?
  {
    var channel := if f.tokenChannel.Some? then FromRawValue(f.tokenChannel.value) else None;
    AppTokenEvent(if f.tokenCount - 1 > 0 then f.tokenCount - 1 else 0, f.textDelta,
                  if channel.Some? then channel.value else Content)
  }

  lemma WireRoundTrip(n: Numbered<AppTokenEvent>)
    ensures Decode(Encode(n)) == n.item
  {
    RawValueRoundTrip(n.item.channel);
  }

  /** Any snapshot is read as an event: the text as it is, the index one below the count but never
      below zero, and the channel by its name, content if there is no name or an unknown one. */
  lemma SnapshotMeans(f: Frame)
    requires f.Snapshot?
    ensures Decode(f).textDelta == f.textDelta
    ensures f.tokenCount > 0 ==> Decode(f).index == f.tokenCount - 1
    ensures f.tokenCount <= 0 ==> Decode(f).index == 0
    ensures forall c :: f.tokenChannel == Some(RawValue(c)) ==> Decode(f).channel == c
    ensures (forall c :: f.tokenChannel != Some(RawValue(c))) ==> Decode(f).channel == Content
  {
    forall c | f.tokenChannel == Some(RawValue(c)) ensures Decode(f).channel == c {
      RawValueRoundTrip(c);
    }
    if f.tokenChannel.Some? && FromRawValue(f.tokenChannel.value).Some? {
      OnlyItsOwnName(f.tokenChannel.value);
    }
  }

  /** The tokens in what was written, as the app reads them. */
  function Tokens(frames: seq<Frame>): seq<AppTokenEvent> {
    if frames == [] then []
    else
      var f := frames[|frames| - 1];
      Tokens(frames[..|frames| - 1]) + if f.Snapshot? then [Decode(f)] else []
  }

  function LastPrefill(frames: seq<Frame>): Option<PrefillProgress> {
    if frames == [] then None
    else
      var f := frames[|frames| - 1];
      if f.PrefillFrame? then Some(f.progress) else LastPrefill(frames[..|frames| - 1])
  }

  lemma OneMoreFrame(frames: seq<Frame>, f: Frame)
    ensures Tokens(frames + [f]) == if f.Snapshot? then Tokens(frames) + [Decode(f)] else Tokens(frames)
    ensures LastPrefill(frames + [f]) == if f.PrefillFrame? then Some(f.progress) else LastPrefill(frames)
  {
    assert (frames + [f])[..|frames|] == frames;
  }

  function Items(taken: seq<Numbered<AppTokenEvent>>): seq<AppTokenEvent> {
    seq(|taken|, i requires 0 <= i < |taken| => taken[i].item)
  }

  // ----- The outbox ----------------------------------------------------------------

  ghost predicate Counted(frames: seq<Frame>) {
    forall i :: 0 <= i < |frames| ==> frames[i].sequence == i + 1
  }

  ghost predicate CountedFrom(taken: seq<Numbered<AppTokenEvent>>, start: nat) {
    forall i :: 0 <= i < |taken| ==> taken[i].sequence == start + i + 1
  }

  lemma CountedOneMore(frames: seq<Frame>, taken: seq<Numbered<AppTokenEvent>>)
    requires Counted(frames) && CountedFrom(taken, |frames|) && taken != []
    ensures Counted(frames + [Encode(taken[0])]) && CountedFrom(taken[1..], |frames| + 1)
  {
    forall i | 0 <= i < |taken[1..]| ensures taken[1..][i].sequence == |frames| + 1 + i + 1 {
      assert taken[1..][i] == taken[i + 1];
    }
  }

  ghost function NewestEnding(endings: seq<Ending>): Option<Ending> {
    if endings == [] then None else Some(endings[|endings| - 1])
  }

  ghost function NewestReport(reported: seq<PrefillProgress>): Option<PrefillProgress> {
    if reported == [] then None else Some(reported[|reported| - 1])
  }

  /** What is written, in hand and pending is what was published, in order. */
  ghost predicate Flow(
    written: seq<Frame>, taken: seq<Numbered<AppTokenEvent>>,
    pending: seq<AppTokenEvent>, published: seq<AppTokenEvent>)
  {
    Tokens(written) + Items(taken) + pending == published
  }

  /** The first token in hand is written. */
  lemma TokenWritten(
    written: seq<Frame>, taken: seq<Numbered<AppTokenEvent>>,
    pending: seq<AppTokenEvent>, published: seq<AppTokenEvent>)
    requires Flow(written, taken, pending, published) && taken != []
    requires Counted(written) && CountedFrom(taken, |written|)
    ensures Flow(written + [Encode(taken[0])], taken[1..], pending, published)
    ensures Counted(written + [Encode(taken[0])]) && CountedFrom(taken[1..], |written| + 1)
    ensures Tokens(written + [Encode(taken[0])]) == Tokens(written) + [taken[0].item]
    ensures LastPrefill(written + [Encode(taken[0])]) == LastPrefill(written)
  {
    OneMoreFrame(written, Encode(taken[0]));
    WireRoundTrip(taken[0]);
    CountedOneMore(written, taken);
    TakeFirst(Tokens(written), taken, pending);
  }

  lemma PendingTaken(
    written: seq<Frame>, pending: seq<AppTokenEvent>, published: seq<AppTokenEvent>,
    taken: seq<Numbered<AppTokenEvent>>)
    requires Flow(written, [], pending, published) && Items(taken) == pending
    ensures Flow(written, taken, [], published) && |Tokens(written)| + |taken| == |published|
  {
    assert Items([]) == [] && Tokens(written) + [] == Tokens(written);
  }

  lemma TakeFirst(w: seq<AppTokenEvent>, taken: seq<Numbered<AppTokenEvent>>, pending: seq<AppTokenEvent>)
    requires taken != []
    ensures w + [taken[0].item] + Items(taken[1..]) + pending == w + Items(taken) + pending
  {
    assert Items(taken) == [taken[0].item] + Items(taken[1..]);
    assert w + [taken[0].item] + Items(taken[1..]) == w + Items(taken);
  }

  class DecodeServiceOutbox {
    // Behind the lock.
    var pendingTokens: seq<AppTokenEvent>
    var latestPrefill: Option<PrefillProgress>
    var terminal: Option<Ending>
    var sequence: nat

    // The drain thread's own.
    var takenPrefill: Option<Numbered<PrefillProgress>>
    var takenTokens: seq<Numbered<AppTokenEvent>>
    var takenTerminal: Option<Ending>
    var written: seq<Frame>

    // Everything ever published, and how many tokens had been when the run ended.
    ghost var published: seq<AppTokenEvent>
    ghost var reported: seq<PrefillProgress>
    ghost var endsAfter: nat

    // Every end of a run that was published, and those the drain thread has taken.
    ghost var endings: seq<Ending>
    ghost var drained: seq<Ending>

    /** Nothing is lost, repeated or put out of order, wherever the tokens now are. */
    ghost predicate Conserved()
      reads this
    {
      Flow(written, takenTokens, pendingTokens, published)
    }

    /** Frames are numbered 1, 2, 3, ... in the order they are written. */
    ghost predicate InSequence()
      reads this
    {
      var ahead := if takenPrefill.Some? then 1 else 0;
      && Counted(written)
      && (takenPrefill.Some? ==> takenPrefill.value.sequence == |written| + 1)
      && CountedFrom(takenTokens, |written| + ahead)
      && sequence == |written| + ahead + |takenTokens|
    }

    /** Reports may be dropped for newer ones, but the newest is never dropped. */
    ghost predicate NewestPrefillKept()
      reads this
    {
      var newest := if latestPrefill.Some? then latestPrefill
                    else if takenPrefill.Some? then Some(takenPrefill.value.item)
                    else LastPrefill(written);
      newest == NewestReport(reported)
    }

    /** The newest end of a run waits to be taken, or is the last that was. */
    ghost predicate NewestEndingKept()
      reads this
    {
      && NewestEnding(endings) == (if terminal.Some? then terminal else NewestEnding(drained))
      && |drained| + (if terminal.Some? then 1 else 0) <= |endings|
    }

    /** No token published before the end of the run is still behind a terminal in hand. */
    ghost predicate EndingWaits()
      reads this
    {
      && endsAfter <= |published|
      && (takenTerminal.Some? ==> terminal.Some? || |Tokens(written)| + |takenTokens| >= endsAfter)
    }

    ghost predicate Valid()
      reads this
    {
      Conserved() && InSequence() && NewestPrefillKept() && NewestEndingKept() && EndingWaits()
    }

    constructor ()
      ensures Valid() && published == [] && reported == [] && written == []
      ensures takenPrefill.None? && takenTokens == [] && terminal.None? && endings == [] && drained == []
    {
      pendingTokens, latestPrefill, terminal, sequence := [], None, None, 0;
      takenPrefill, takenTokens, takenTerminal, written := None, [], None, [];
      published, reported, endsAfter := [], [], 0;
      endings, drained := [], [];
    }

    /** The publishing thread. */
    method Publish(event: AppInferenceEvent)
      requires Valid()
      modifies this`pendingTokens, this`latestPrefill, this`terminal,
               this`published, this`reported, this`endsAfter, this`endings
      ensures Valid()
      ensures published == old(published) + if event.Token? then [event.token] else []
      ensures reported == old(reported) + if event.Prefill? then [event.progress] else []
      ensures endings == old(endings) + if event.Terminal? then [event.ending] else []
      ensures terminal == if event.Terminal? then Some(event.ending) else old(terminal)
      ensures endsAfter == if event.Terminal? then |published| else old(endsAfter)
      ensures pendingTokens == old(pendingTokens) + if event.Token? then [event.token] else []
      ensures latestPrefill == if event.Prefill? then Some(event.progress) else old(latestPrefill)
    {
      match event {
        case Prefill(progress) =>
          latestPrefill := Some(progress);
          reported := reported + [progress];
        case Token(token) =>
          pendingTokens := pendingTokens + [token];
          published := published + [token];
        case Terminal(ending) =>
          terminal := Some(ending);
          endsAfter := |published|;
          endings := endings + [ending];
      }
    }

    /** What is pending is taken: the terminal, and the newest prefill report under its number. */
    method TakeReports()
      requires NewestPrefillKept() && NewestEndingKept() && takenPrefill.None?
      modifies this`latestPrefill, this`terminal, this`sequence, this`takenPrefill, this`takenTerminal, this`drained
      ensures NewestPrefillKept() && NewestEndingKept() && latestPrefill.None? && terminal.None?
      ensures takenTerminal == old(terminal)
      ensures drained == old(drained) + if takenTerminal.Some? then [takenTerminal.value] else []
      ensures if old(latestPrefill).None? then takenPrefill.None? && sequence == old(sequence)
              else sequence == old(sequence) + 1
                   && takenPrefill == Some(Numbered(sequence, old(latestPrefill).value))
    {
      takenTerminal := terminal;
      drained := drained + if terminal.Some? then [terminal.value] else [];
      if latestPrefill.Some? {
        sequence := sequence + 1;
        takenPrefill := Some(Numbered(sequence, latestPrefill.value));
      }
      latestPrefill, terminal := None, None;
    }

    /** The drain thread's turn with the lock: take all that is pending and number it. */
    method Take() returns (ending: Option<Ending>)
      requires Valid() && takenPrefill.None? && takenTokens == []
      modifies this`pendingTokens, this`latestPrefill, this`terminal, this`sequence,
               this`takenPrefill, this`takenTokens, this`takenTerminal, this`drained
      ensures Valid() && pendingTokens == [] && latestPrefill.None? && terminal.None?
      ensures Items(takenTokens) == old(pendingTokens)
      ensures ending == takenTerminal == old(terminal)
      ensures drained == old(drained) + if ending.Some? then [ending.value] else []
      ensures ending.Some? ==> |Tokens(written)| + |takenTokens| >= endsAfter
    {
      var tokens := pendingTokens;
      TakeReports();
      pendingTokens := [];
      takenTokens := Number(tokens);
      PendingTaken(written, tokens, published, takenTokens);
      return takenTerminal;
    }

    /** Gives each token the next number. */
    method Number(tokens: seq<AppTokenEvent>) returns (numbered: seq<Numbered<AppTokenEvent>>)
      modifies this`sequence
      ensures sequence == old(sequence) + |tokens| && |numbered| == |tokens| && Items(numbered) == tokens
      ensures CountedFrom(numbered, old(sequence))
    {
      numbered := [];
      for i := 0 to |tokens|
        invariant sequence == old(sequence) + i && |numbered| == i
        invariant forall j :: 0 <= j < i ==> numbered[j] == Numbered(old(sequence) + j + 1, tokens[j])
      {
        sequence := sequence + 1;
        numbered := numbered + [Numbered(sequence, tokens[i])];
      }
      assert Items(numbered) == tokens;
    }

    /** The prefill report of a batch is written first. */
    method WritePrefill()
      requires Valid() && takenPrefill.Some?
      modifies this`takenPrefill, this`written
      ensures Valid() && takenPrefill.None?
      ensures written == old(written) + [PrefillFrame(old(sequence) - |takenTokens|, old(takenPrefill).value.item)]
    {
      var frame := PrefillFrame(takenPrefill.value.sequence, takenPrefill.value.item);
      OneMoreFrame(written, frame);
      written := written + [frame];
      takenPrefill := None;
    }

    /** Then its tokens, in order. */
    method WriteToken()
      requires Valid() && takenPrefill.None? && takenTokens != []
      modifies this`takenTokens, this`written
      ensures Valid() && takenTokens == old(takenTokens)[1..]
      ensures Tokens(written) == Tokens(old(written)) + [old(takenTokens)[0].item]
      ensures |written| == |old(written)| + 1 && old(written) <= written
    {
      var next := takenTokens[0];
      TokenWritten(written, takenTokens, pendingTokens, published);
      written := written + [Encode(next)];
      takenTokens := takenTokens[1..];
    }
  }

  /** Once the drain thread has caught up, the app has read exactly what was published, and the
      newest progress report; and the newest end of a run has been taken, none more than once. */
  lemma AllDelivered(o: DecodeServiceOutbox)
    requires o.Valid() && o.pendingTokens == [] && o.takenTokens == []
    ensures Tokens(o.written) == o.published
    ensures o.latestPrefill.None? && o.takenPrefill.None? ==> LastPrefill(o.written) == NewestReport(o.reported)
    ensures o.terminal.None? ==> NewestEnding(o.drained) == NewestEnding(o.endings) && |o.drained| <= |o.endings|
    ensures o.terminal.None? && |o.endings| == 1 ==> o.drained == o.endings
  {
  }

  /** Until then it has read the start of it, under strictly increasing numbers. */
  lemma DeliveredSoFar(o: DecodeServiceOutbox)
    requires o.Valid()
    ensures Tokens(o.written) <= o.published
    ensures forall i, j :: 0 <= i < j < |o.written| ==> o.written[i].sequence < o.written[j].sequence
  {
    assert Tokens(o.written) + (Items(o.takenTokens) + o.pendingTokens) == o.published;
  }
}

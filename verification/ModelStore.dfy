/** Fetching and installing models under one download lock.

    Any number of processes share one cache root. Each method is one step of one process:
    asking for the lock, being given it, planning under it, writing some bytes, finishing,
    leaving, or dying. A process that returns or raises ends its transfer first. One that dies
    frees the lock and may leave a child behind that goes on packing: `writers` names all who
    write, and those that are in no phase are such children. `Valid` holds in every state that
    any interleaving of installs, fetches, interruptions and resumptions reaches. A transfer is
    taken to write at most the bytes that were published for it, and nothing else to use the
    disk meanwhile. */
module ModelStore {
  import opened Options
  import opened Seals
  import opened Collections

  /** What is on disk for one model; done once it is verified or its snapshot is complete. */
  datatype Copy = Copy(bytes: nat, done: bool)

  datatype Kind = Packed | Hub

  /** A process that is in no phase is not using the cache. */
  datatype Phase = Waiting | Holding | Transferring

  /** Someone who may still write so many bytes to one copy. */
  datatype Writer = Writer(kind: Kind, model: string, left: nat)

  datatype Disk = Disk(free: int, packed: map<string, Copy>, hub: map<string, Copy>)

  datatype Limits = Limits(reserve: nat, storeLimit: nat)

  /** What happened to transfers, in order. */
  datatype Step =
    | Started(p: int, kind: Kind, model: string)
    | Wrote(p: int, kind: Kind, model: string)
    | Ended(p: int, kind: Kind, model: string, done: bool)

  /** The steps, and whether every transfer was started with no other writer alive (calm),
      with no other writer of its copy (single), and with room for all writers (roomy). */
  datatype History = History(log: seq<Step>, calm: bool, single: bool, roomy: bool)

  datatype Plan = Refused | Reuse | Transfer

  // ----- The disk -------------------------------------------------------------------

  predicate IsDone(copies: map<string, Copy>, model: string) {
    model in copies && copies[model].done
  }

  function Copies(d: Disk, kind: Kind): map<string, Copy> {
    if kind == Packed then d.packed else d.hub
  }

  function Put(d: Disk, kind: Kind, copies: map<string, Copy>): Disk {
    if kind == Packed then d.(packed := copies) else d.(hub := copies)
  }

  ghost function Bytes(copies: map<string, Copy>): (bytes: int)
    ensures bytes >= 0 && (copies == map[] ==> bytes == 0)
  {
    TotalIsNatural(map m | m in copies :: copies[m].bytes as int);
    Total(map m | m in copies :: copies[m].bytes as int)
  }

  function BytesIn(copies: map<string, Copy>, model: string): nat {
    if model in copies then copies[model].bytes else 0
  }

  /** Finished copies are not touched. */
  ghost predicate DoneStays(before: map<string, Copy>, after: map<string, Copy>) {
    forall m :: IsDone(before, m) ==> m in after && after[m] == before[m]
  }

  function Grown(copies: map<string, Copy>, model: string, n: nat): map<string, Copy> {
    copies[model := Copy(BytesIn(copies, model) + n, IsDone(copies, model))]
  }

  function Completed(copies: map<string, Copy>, model: string): map<string, Copy> {
    copies[model := Copy(BytesIn(copies, model), true)]
  }

  lemma BytesOfUpdate(copies: map<string, Copy>, model: string, copy: Copy)
    ensures Bytes(copies[model := copy]) == Bytes(copies) - BytesIn(copies, model) + copy.bytes
  {
    var sizes := map m | m in copies :: copies[m].bytes as int;
    var updated := copies[model := copy];
    assert (map m | m in updated :: updated[m].bytes as int) == sizes[model := copy.bytes as int];
    TotalOfUpdate(sizes, model, copy.bytes);
  }

  /** Adds up the files of one store. */
  method DirectoryBytes(copies: map<string, Copy>) returns (total: int)
    ensures total == Bytes(copies)
  {
    total := Sum(map m | m in copies :: copies[m].bytes as int);
  }

  /** What packed_preflight checks about space. */
  predicate InstallFits(reserve: nat, storeLimit: nat, free: int, packedBytes: int, published: nat) {
    free - published >= reserve && packedBytes + published <= storeLimit
  }

  // ----- Room for all writers -------------------------------------------------------

  /** What all writers together may still write. */
  ghost function Left(ws: map<int, Writer>): (left: int)
    ensures left >= 0 && (ws == map[] ==> left == 0)
  {
    TotalIsNatural(map p | p in ws :: ws[p].left as int);
    Total(map p | p in ws :: ws[p].left as int)
  }

  lemma LeftOfUpdate(ws: map<int, Writer>, p: int, w: Writer)
    ensures Left(ws[p := w]) == Left(ws - {p}) + w.left
    ensures Left(ws) == Left(ws - {p}) + if p in ws then ws[p].left else 0
  {
    var lefts := map q | q in ws :: ws[q].left as int;
    var updated, without := ws[p := w], ws - {p};
    assert (map q | q in updated :: updated[q].left as int) == lefts[p := w.left as int];
    assert (map q | q in without :: without[q].left as int) == lefts - {p};
    TotalOfUpdate(lefts, p, w.left);
  }

  ghost predicate SomeHub(ws: map<int, Writer>) {
    exists p :: p in ws && ws[p].kind == Hub
  }

  /** Both limits hold even when every writer writes all it may. The Hub store counts as long
      as something is written there. */
  ghost predicate Room(l: Limits, d: Disk, ws: map<int, Writer>) {
    ws != map[] ==>
      && d.free - Left(ws) >= l.reserve
      && Bytes(d.packed) + (if SomeHub(ws) then Bytes(d.hub) else 0) + Left(ws) <= l.storeLimit
  }

  /** Nothing that was done here has broken the disk reserve or the packed store's limit. */
  ghost predicate WithinLimits(l: Limits, first: Disk, d: Disk) {
    && (d.free >= l.reserve || d.free == first.free)
    && (Bytes(d.packed) <= l.storeLimit || Bytes(d.packed) == Bytes(first.packed))
  }

  /** What a preflight checks about the space for one writer. */
  ghost predicate StartFits(l: Limits, d: Disk, w: Writer) {
    && d.free - w.left >= l.reserve
    && Bytes(d.packed) + (if w.kind == Hub then Bytes(d.hub) else 0) + w.left <= l.storeLimit
  }

  /** A preflight sees the disk, not what children left behind may still write. A start leaves
      room for all exactly when the checks hold with that counted in. */
  lemma RoomAfterStart(l: Limits, d: Disk, ws: map<int, Writer>, p: int, w: Writer)
    requires p !in ws && !SomeHub(ws)
    ensures Room(l, d, ws[p := w]) <==> StartFits(l, d, w.(left := Left(ws) + w.left))
  {
    LeftOfUpdate(ws, p, w);
    assert ws - {p} == ws;
    assert ws[p := w][p] == w;
  }

  lemma StartFitsAlone(l: Limits, d: Disk, p: int, w: Writer)
    requires StartFits(l, d, w)
    ensures Room(l, d, map[][p := w])
  {
    RoomAfterStart(l, d, map[], p, w);
  }

  /** n more bytes, on disk and off what is left. */
  function Writing(d: Disk, w: Writer, n: nat): Disk {
    Put(d, w.kind, Grown(Copies(d, w.kind), w.model, n)).(free := d.free - n)
  }

  lemma WritingBytes(d: Disk, w: Writer, n: nat)
    ensures
      var e := Writing(d, w, n);
      && Bytes(e.packed) == Bytes(d.packed) + (if w.kind == Packed then n else 0)
      && Bytes(e.hub) == Bytes(d.hub) + (if w.kind == Hub then n else 0)
  {
    BytesOfUpdate(Copies(d, w.kind), w.model, Grown(Copies(d, w.kind), w.model, n)[w.model]);
  }

  /** No finished copy is touched, in either store; sealed. */
  ghost predicate BothStay(d: Disk, e: Disk) {
    forall key {:trigger Unsealed(key)} :: Unsealed(key) ==> DoneStays(d.packed, e.packed) && DoneStays(d.hub, e.hub)
  }

  /** A write touches a finished copy exactly when its own copy is one. */
  lemma WritingStays(d: Disk, w: Writer, n: nat)
    ensures BothStay(d, Writing(d, w, n)) <==> n == 0 || !IsDone(Copies(d, w.kind), w.model)
  {
    assert Unsealed(0);
    if n > 0 && IsDone(Copies(d, w.kind), w.model) {
      assert Copies(Writing(d, w, n), w.kind)[w.model] != Copies(d, w.kind)[w.model];
    }
  }

  function Finishing(d: Disk, w: Writer): Disk {
    Put(d, w.kind, Completed(Copies(d, w.kind), w.model))
  }

  lemma FinishingStays(d: Disk, w: Writer)
    ensures BothStay(d, Finishing(d, w))
  {
  }

  lemma FinishingBytes(d: Disk, w: Writer)
    ensures Bytes(Finishing(d, w).packed) == Bytes(d.packed) && Bytes(Finishing(d, w).hub) == Bytes(d.hub)
  {
    BytesOfUpdate(Copies(d, w.kind), w.model, Copy(BytesIn(Copies(d, w.kind), w.model), true));
  }

  lemma RoomForWrite(l: Limits, first: Disk, d: Disk, ws: map<int, Writer>, p: int, n: nat)
    requires p in ws && n <= ws[p].left && Room(l, d, ws) && WithinLimits(l, first, d)
    ensures
      var e := Writing(d, ws[p], n);
      Room(l, e, ws[p := ws[p].(left := ws[p].left - n)]) && WithinLimits(l, first, e)
  {
    var after := ws[p := ws[p].(left := ws[p].left - n)];
    WritingBytes(d, ws[p], n);
    LeftOfUpdate(ws, p, after[p]);
    assert forall q :: q in ws ==> after[q].kind == ws[q].kind;
    if ws[p].kind == Hub {
      assert SomeHub(ws) && SomeHub(after);
    }
    assert SomeHub(after) <==> SomeHub(ws) by {
      if SomeHub(ws) {
        var q :| q in ws && ws[q].kind == Hub;
        assert after[q].kind == Hub;
      }
    }
  }

  lemma RoomForEnd(l: Limits, first: Disk, d: Disk, ws: map<int, Writer>, p: int, e: Disk)
    requires p in ws && Room(l, d, ws) && WithinLimits(l, first, d)
    requires e.free == d.free && Bytes(e.packed) == Bytes(d.packed) && Bytes(e.hub) == Bytes(d.hub)
    ensures Room(l, e, ws - {p}) && WithinLimits(l, first, e)
  {
    LeftOfUpdate(ws, p, ws[p]);
    if SomeHub(ws - {p}) {
      var q :| q in ws - {p} && ws[q].kind == Hub;
      assert SomeHub(ws);
    }
  }

  // ----- Histories ------------------------------------------------------------------

  ghost predicate SameCopy(a: Step, b: Step) {
    a.kind == b.kind && a.model == b.model
  }

  /** Once a transfer has ended well, nothing more happens to its copy. */
  ghost predicate NeverAgain(log: seq<Step>) {
    forall i, j :: 0 <= i < j < |log| && log[i].Ended? && log[i].done ==> !SameCopy(log[i], log[j])
  }

  /** The transfer started at i has ended before position n. */
  ghost predicate EndedBefore(log: seq<Step>, i: nat, n: nat)
    requires i < |log| && n <= |log|
  {
    exists k :: i < k < n && log[k].Ended? && log[k].p == log[i].p
  }

  /** The transfer started at i is open. */
  ghost predicate Open(log: seq<Step>, i: nat)
    requires i < |log|
  {
    log[i].Started? && !EndedBefore(log, i, |log|)
  }

  /** A transfer starts only after every earlier one has ended: no two overlap. */
  ghost predicate OneAtATime(log: seq<Step>) {
    forall i, j :: 0 <= i < j < |log| && log[i].Started? && log[j].Started? ==> EndedBefore(log, i, j)
  }

  /** e is a later step of the transfer that a started. */
  ghost predicate Continues(a: Step, e: Step) {
    e.p == a.p && SameCopy(a, e) && !e.Started?
  }

  /** From the start of a transfer to its end, nothing happens but its own steps. */
  ghost predicate Undisturbed(log: seq<Step>) {
    forall i, j :: 0 <= i < j < |log| && log[i].Started? && !EndedBefore(log, i, j) ==> Continues(log[i], log[j])
  }

  ghost predicate IsWriter(ws: map<int, Writer>, a: Step) {
    a.p in ws && ws[a.p].kind == a.kind && ws[a.p].model == a.model
  }

  ghost predicate HasOpen(log: seq<Step>, p: int) {
    exists i :: 0 <= i < |log| && Open(log, i) && log[i].p == p
  }

  /** The open transfers of the history are those of the writers. */
  ghost predicate Followed(log: seq<Step>, ws: map<int, Writer>) {
    && (forall i :: 0 <= i < |log| && Open(log, i) ==> IsWriter(ws, log[i]))
    && (forall p :: p in ws ==> HasOpen(log, p))
  }

  ghost predicate AtMostOne(ws: map<int, Writer>) {
    forall p, q :: p in ws && q in ws ==> p == q
  }

  lemma EndedBeforeStays(log: seq<Step>, i: nat, n: nat, e: Step)
    requires i < |log| && n <= |log|
    ensures EndedBefore(log + [e], i, n) <==> EndedBefore(log, i, n)
    ensures EndedBefore(log + [e], i, |log| + 1) <==>
              EndedBefore(log, i, |log|) || (e.Ended? && e.p == log[i].p)
  {
    var grown := log + [e];
    assert grown[|log|] == e && forall k :: 0 <= k < |log| ==> grown[k] == log[k];
    if EndedBefore(log, i, n) {
      var k :| i < k < n && log[k].Ended? && log[k].p == log[i].p;
      assert grown[k].Ended?;
    }
    if EndedBefore(log, i, |log|) {
      var k :| i < k < |log| && log[k].Ended? && log[k].p == log[i].p;
      assert grown[k].Ended?;
    }
  }

  lemma OpenStays(log: seq<Step>, i: nat, e: Step)
    requires i < |log|
    ensures Open(log + [e], i) <==> Open(log, i) && !(e.Ended? && e.p == log[i].p)
  {
    EndedBeforeStays(log, i, |log|, e);
    assert (log + [e])[i] == log[i];
  }

  lemma HasOpenStays(log: seq<Step>, p: int, e: Step)
    requires HasOpen(log, p) && !(e.Ended? && e.p == p)
    ensures HasOpen(log + [e], p)
  {
    var i :| 0 <= i < |log| && Open(log, i) && log[i].p == p;
    OpenStays(log, i, e);
    assert (log + [e])[i] == log[i];
  }

  /** What one step makes of the writers. */
  ghost predicate Succeeds(ws: map<int, Writer>, e: Step, after: map<int, Writer>) {
    && (forall q :: q != e.p ==> (q in after <==> q in ws) && (q in ws ==> after[q] == ws[q]))
    && match e
       case Started(p, kind, model) => p !in ws && IsWriter(after, e)
       case Wrote(p, kind, model) => IsWriter(ws, e) && IsWriter(after, e)
       case Ended(p, kind, model, done) => IsWriter(ws, e) && p !in after
  }

  lemma FollowedGrows(log: seq<Step>, ws: map<int, Writer>, e: Step, after: map<int, Writer>)
    requires Followed(log, ws) && Succeeds(ws, e, after)
    ensures Followed(log + [e], after)
  {
    var grown := log + [e];
    forall i | 0 <= i < |grown| && Open(grown, i) ensures IsWriter(after, grown[i]) {
      if i < |log| {
        OpenStays(log, i, e);
        assert IsWriter(ws, log[i]);
      }
    }
    forall p | p in after ensures HasOpen(grown, p) {
      if e.Started? && p == e.p {
        assert grown[|log|] == e && Open(grown, |log|);
      } else {
        HasOpenStays(log, p, e);
      }
    }
  }

  /** Every transfer started so far has ended. */
  ghost predicate AllEnded(log: seq<Step>) {
    forall i :: 0 <= i < |log| ==> !Open(log, i)
  }

  lemma NoWritersAllEnded(log: seq<Step>, ws: map<int, Writer>)
    requires Followed(log, ws)
    ensures ws == map[] <==> AllEnded(log)
  {
    if ws != map[] {
      var p := SomeKey(ws);
      assert HasOpen(log, p);
    }
  }

  /** Transfers go on not overlapping exactly as long as none is started beside another. */
  lemma OneAtATimeGrows(log: seq<Step>, e: Step)
    ensures OneAtATime(log + [e]) <==> OneAtATime(log) && (e.Started? ==> AllEnded(log))
  {
    var grown := log + [e];
    assert grown[|log|] == e && forall k :: 0 <= k < |log| ==> grown[k] == log[k];
    forall i, j | 0 <= i < |log| && 0 <= j <= |log| ensures EndedBefore(grown, i, j) <==> EndedBefore(log, i, j) {
      EndedBeforeStays(log, i, j, e);
    }
    if OneAtATime(grown) {
      forall i, j | 0 <= i < j < |log| && log[i].Started? && log[j].Started? ensures EndedBefore(log, i, j) {
        assert EndedBefore(grown, i, j);
      }
      forall i | 0 <= i < |log| && e.Started? ensures !Open(log, i) {
        if log[i].Started? {
          assert EndedBefore(grown, i, |log|);
        }
      }
    }
    if OneAtATime(log) && (e.Started? ==> AllEnded(log)) {
      forall i, j | 0 <= i < j < |grown| && grown[i].Started? && grown[j].Started? ensures EndedBefore(grown, i, j) {
        if j == |log| {
          assert !Open(log, i);
        } else {
          assert EndedBefore(log, i, j);
        }
      }
    }
  }

  lemma UndisturbedGrows(log: seq<Step>, ws: map<int, Writer>, e: Step)
    requires Undisturbed(log) && Followed(log, ws) && AtMostOne(ws)
    requires if e.Started? then ws == map[] else IsWriter(ws, e)
    ensures Undisturbed(log + [e])
  {
    var grown := log + [e];
    forall i, j | 0 <= i < j < |grown| && grown[i].Started? && !EndedBefore(grown, i, j)
      ensures Continues(grown[i], grown[j])
    {
      EndedBeforeStays(log, i, j, e);
      if j == |log| {
        assert Open(log, i) && IsWriter(ws, log[i]);
      }
    }
  }

  // ----- What every step keeps ------------------------------------------------------

  /** What ended well is done. */
  ghost predicate DoneIsDone(log: seq<Step>, d: Disk) {
    forall i :: 0 <= i < |log| && log[i].Ended? && log[i].done ==> IsDone(Copies(d, log[i].kind), log[i].model)
  }

  /** No copy has two writers, and none that is written is done. */
  ghost predicate OneEach(d: Disk, ws: map<int, Writer>) {
    && (forall p :: p in ws ==> !IsDone(Copies(d, ws[p].kind), ws[p].model))
    && (forall p, q :: p in ws && q in ws && ws[p].kind == ws[q].kind && ws[p].model == ws[q].model ==> p == q)
  }

  /** No one writes this copy. */
  ghost predicate Unwritten(ws: map<int, Writer>, kind: Kind, model: string) {
    forall q :: q in ws ==> ws[q].kind != kind || ws[q].model != model
  }

  /** The history of the copies, and of a single history. */
  ghost predicate CopiesKept(log: seq<Step>, d: Disk, ws: map<int, Writer>, single: bool) {
    DoneIsDone(log, d) && (single ==> NeverAgain(log) && OneEach(d, ws))
  }

  lemma CopiesAfterStart(log: seq<Step>, d: Disk, ws: map<int, Writer>, single: bool, p: int, w: Writer)
    requires CopiesKept(log, d, ws, single) && p !in ws && !IsDone(Copies(d, w.kind), w.model)
    ensures CopiesKept(log + [Started(p, w.kind, w.model)], d, ws[p := w],
                       single && Unwritten(ws, w.kind, w.model))
  {
  }

  lemma CopiesAfterWrite(
    log: seq<Step>, d: Disk, ws: map<int, Writer>, single: bool, p: int, n: nat, after: map<int, Writer>)
    requires CopiesKept(log, d, ws, single) && p in ws
    requires p in after && after == ws[p := after[p]] && after[p].kind == ws[p].kind && after[p].model == ws[p].model
    ensures CopiesKept(log + [Wrote(p, ws[p].kind, ws[p].model)], Writing(d, ws[p], n), after, single)
  {
  }

  lemma CopiesAfterEnd(log: seq<Step>, d: Disk, ws: map<int, Writer>, single: bool, p: int, done: bool)
    requires CopiesKept(log, d, ws, single) && p in ws
    ensures CopiesKept(log + [Ended(p, ws[p].kind, ws[p].model, done)],
                       if done then Finishing(d, ws[p]) else d, ws - {p}, single)
  {
  }

  /** Whether transfers overlap. */
  ghost predicate OverlapKept(log: seq<Step>, ws: map<int, Writer>, calm: bool) {
    && Followed(log, ws) && (calm <==> OneAtATime(log))
    && (calm ==> Undisturbed(log) && AtMostOne(ws))
  }

  lemma OverlapAfter(log: seq<Step>, ws: map<int, Writer>, calm: bool, e: Step, after: map<int, Writer>)
    requires OverlapKept(log, ws, calm) && Succeeds(ws, e, after)
    ensures OverlapKept(log + [e], after, calm && (e.Started? ==> ws == map[]))
  {
    FollowedGrows(log, ws, e, after);
    NoWritersAllEnded(log, ws);
    OneAtATimeGrows(log, e);
    if calm && (e.Started? ==> ws == map[]) {
      UndisturbedGrows(log, ws, e);
    }
  }

  ghost predicate SpaceKept(l: Limits, first: Disk, d: Disk, ws: map<int, Writer>, roomy: bool) {
    roomy ==> Room(l, d, ws) && WithinLimits(l, first, d)
  }

  /** No transfers overlap in a calm history, and in no other. No finished copy is touched in a
      single one. Both limits hold, and go on holding, in a roomy one. */
  ghost predicate Kept(l: Limits, first: Disk, d: Disk, ws: map<int, Writer>, h: History) {
    && OverlapKept(h.log, ws, h.calm) && CopiesKept(h.log, d, ws, h.single) && SpaceKept(l, first, d, ws, h.roomy)
    && (h.calm ==> h.single && h.roomy)
  }

  /** The same, sealed. */
  ghost predicate Sound(l: Limits, first: Disk, d: Disk, ws: map<int, Writer>, h: History) {
    forall key {:trigger Unsealed(key)} :: Unsealed(key) ==> Kept(l, first, d, ws, h)
  }

  lemma UnsealHistory(l: Limits, first: Disk, d: Disk, ws: map<int, Writer>, h: History)
    requires Sound(l, first, d, ws, h)
    ensures Kept(l, first, d, ws, h)
  {
    assert Unsealed(0);
  }

  lemma SoundAtFirst(l: Limits, first: Disk)
    ensures Sound(l, first, first, map[], History([], true, true, true))
  {
  }

  ghost function AfterStart(l: Limits, d: Disk, ws: map<int, Writer>, h: History, p: int, w: Writer): History {
    History(h.log + [Started(p, w.kind, w.model)],
            h.calm && ws == map[],
            h.single && Unwritten(ws, w.kind, w.model),
            h.roomy && Room(l, d, ws[p := w]))
  }

  lemma StartIsSound(l: Limits, first: Disk, d: Disk, ws: map<int, Writer>, h: History, p: int, w: Writer)
    requires Sound(l, first, d, ws, h) && p !in ws
    requires StartFits(l, d, w) && !IsDone(Copies(d, w.kind), w.model)
    ensures Sound(l, first, d, ws[p := w], AfterStart(l, d, ws, h, p, w))
  {
    UnsealHistory(l, first, d, ws, h);
    OverlapAfter(h.log, ws, h.calm, Started(p, w.kind, w.model), ws[p := w]);
    CopiesAfterStart(h.log, d, ws, h.single, p, w);
    StartFitsAlone(l, d, p, w);
  }

  lemma WriteIsSound(
    l: Limits, first: Disk, d: Disk, ws: map<int, Writer>, h: History, p: int, n: nat,
    e: Disk, after: map<int, Writer>, k: History)
    requires Sound(l, first, d, ws, h) && p in ws && n <= ws[p].left
    requires e == Writing(d, ws[p], n) && after == ws[p := ws[p].(left := ws[p].left - n)]
    requires k == h.(log := h.log + [Wrote(p, ws[p].kind, ws[p].model)])
    ensures Sound(l, first, e, after, k)
    ensures BothStay(d, e) <==> n == 0 || !IsDone(Copies(d, ws[p].kind), ws[p].model)
    ensures h.single ==> BothStay(d, e)
  {
    WritingStays(d, ws[p], n);
    UnsealHistory(l, first, d, ws, h);
    OverlapAfter(h.log, ws, h.calm, Wrote(p, ws[p].kind, ws[p].model), after);
    CopiesAfterWrite(h.log, d, ws, h.single, p, n, after);
    if h.roomy { RoomForWrite(l, first, d, ws, p, n); }
  }

  lemma EndIsSound(l: Limits, first: Disk, d: Disk, ws: map<int, Writer>, h: History, p: int, done: bool)
    requires Sound(l, first, d, ws, h) && p in ws
    ensures
      Sound(l, first, if done then Finishing(d, ws[p]) else d, ws - {p},
            h.(log := h.log + [Ended(p, ws[p].kind, ws[p].model, done)]))
    ensures done ==> BothStay(d, Finishing(d, ws[p]))
  {
    FinishingStays(d, ws[p]);
    UnsealHistory(l, first, d, ws, h);
    OverlapAfter(h.log, ws, h.calm, Ended(p, ws[p].kind, ws[p].model, done), ws - {p});
    CopiesAfterEnd(h.log, d, ws, h.single, p, done);
    FinishingBytes(d, ws[p]);
    if h.roomy { RoomForEnd(l, first, d, ws, p, if done then Finishing(d, ws[p]) else d); }
  }

  class CacheRoot {
    const limits: Limits
    const maxModel: nat
    var disk: Disk
    var lock: Option<int>
    var phases: map<int, Phase>
    var writers: map<int, Writer>

    ghost var history: History
    ghost const first: Disk

    /** A process past the lock is the one that holds it; the others wait or are away. */
    ghost predicate Exclusive()
      reads this
    {
      && (forall p :: p in phases && phases[p] != Waiting ==> lock == Some(p))
      && (lock.Some? ==> lock.value in phases && phases[lock.value] != Waiting)
    }

    /** A writer is the transfer of the process that holds the lock, or was left packing by one
        that died. */
    ghost predicate Attended()
      reads this
    {
      && (forall p :: p in phases ==> (phases[p] == Transferring <==> p in writers))
      && (forall p :: p in writers && p !in phases ==> writers[p].kind == Packed)
    }

    ghost predicate Valid()
      reads this
    {
      Exclusive() && Attended() && Sound(limits, first, disk, writers, history)
    }

    constructor (
      reserve: nat, storeLimit: nat, maxModel: nat, free: int, packed: map<string, Copy>, hub: map<string, Copy>)
      ensures Valid() && lock.None? && phases == map[] && writers == map[]
      ensures history == History([], true, true, true) && first == disk == Disk(free, packed, hub)
      ensures limits == Limits(reserve, storeLimit) && this.maxModel == maxModel
    {
      this.limits, this.maxModel := Limits(reserve, storeLimit), maxModel;
      disk := Disk(free, packed, hub);
      lock, phases, writers := None, map[], map[];
      first := Disk(free, packed, hub);
      history := History([], true, true, true);
      SoundAtFirst(Limits(reserve, storeLimit), Disk(free, packed, hub));
    }

    /** A new process asks for the lock. */
    method Request(p: int)
      requires Valid() && p !in phases && p !in writers
      modifies this`phases
      ensures Valid() && phases == old(phases)[p := Waiting]
    {
      phases := phases[p := Waiting];
    }

    /** The lock is granted to one of those waiting when no process has it. A child left behind
        by a dead one does not hold it. */
    method Acquire(p: int)
      requires Valid() && p in phases && phases[p] == Waiting && lock.None?
      modifies this`lock, this`phases
      ensures Valid() && lock == Some(p) && phases == old(phases)[p := Holding]
    {
      lock := Some(p);
      phases := phases[p := Holding];
    }

    ghost predicate Undecided(p: int)
      reads this
    {
      p in phases && phases[p] == Holding
    }

    /** packed_preflight, then the decision to transfer. `pinned`: the runtime and its binaries
        are the pinned ones; `elsewhere`: a full source snapshot exists in some cache. */
    method PlanInstall(p: int, model: string, published: nat, pinned: bool, elsewhere: bool) returns (plan: Plan)
      requires Valid() && Undecided(p)
      modifies this`lock, this`phases, this`writers, this`history
      ensures Valid()
      ensures plan == Reuse <==> pinned && IsDone(disk.packed, model)
      ensures plan == Transfer <==>
                && pinned && !IsDone(disk.packed, model) && !elsewhere
                && InstallFits(limits.reserve, limits.storeLimit, disk.free, Bytes(disk.packed), published)
      ensures plan == Transfer ==> StartedBy(old(phases), old(writers), old(history), p,
                                             Writer(Packed, model, published))
      ensures plan != Transfer ==> writers == old(writers) && history == old(history)
      ensures plan == Reuse ==> phases == old(phases)
      ensures plan == Refused ==> lock.None? && phases == old(phases) - {p}
    {
      var existing := IsDone(disk.packed, model);
      var storeBytes := DirectoryBytes(disk.packed);
      var refused := !pinned;
      if elsewhere && !existing { refused := true; }
      if !existing && disk.free - published < limits.reserve { refused := true; }
      if !existing && storeBytes + published > limits.storeLimit { refused := true; }
      if refused {
        Leave(p);
        return Refused;
      }
      if existing {
        return Reuse;
      }
      Start(p, Writer(Packed, model, published));
      return Transfer;
    }

    /** preflight, then the decision to download. Here the limit covers both stores. */
    method PlanFetch(p: int, repo: string, published: int, elsewhere: bool) returns (plan: Plan)
      requires Valid() && Undecided(p)
      modifies this`lock, this`phases, this`writers, this`history
      ensures Valid()
      ensures plan == Reuse <==> IsDone(disk.hub, repo) || elsewhere
      ensures plan == Transfer <==>
                && !IsDone(disk.hub, repo) && !elsewhere && 0 < published <= maxModel
                && disk.free - published >= limits.reserve
                && Bytes(disk.packed) + Bytes(disk.hub) + published <= limits.storeLimit
      ensures plan == Transfer ==> StartedBy(old(phases), old(writers), old(history), p,
                                             Writer(Hub, repo, published))
      ensures plan != Transfer ==> writers == old(writers) && history == old(history)
      ensures plan == Reuse ==> phases == old(phases)
      ensures plan == Refused ==> lock.None? && phases == old(phases) - {p}
    {
      if IsDone(disk.hub, repo) || elsewhere {
        return Reuse;
      }
      var packedBytes := DirectoryBytes(disk.packed);
      var hubBytes := DirectoryBytes(disk.hub);
      var refused := false;
      if published <= 0 { refused := true; }
      if published > maxModel { refused := true; }
      if disk.free - published < limits.reserve { refused := true; }
      if packedBytes + hubBytes + published > limits.storeLimit { refused := true; }
      if refused {
        Leave(p);
        return Refused;
      }
      Start(p, Writer(Hub, repo, published));
      return Transfer;
    }

    /** Process p has become a writer. The history stays calm exactly if there was no other one,
        single exactly if there was no other one of this copy, and roomy exactly if there is
        room for what all of them may write. */
    ghost predicate StartedBy(
      phases': map<int, Phase>, writers': map<int, Writer>, history': History, p: int, w: Writer)
      reads this
    {
      && phases == phases'[p := Transferring] && writers == writers'[p := w]
      && history == AfterStart(limits, disk, writers', history', p, w)
    }

    /** The transfer command is started. */
    method Start(p: int, w: Writer)
      requires Valid() && Undecided(p) && !IsDone(Copies(disk, w.kind), w.model) && StartFits(limits, disk, w)
      modifies this`phases, this`writers, this`history
      ensures Valid() && StartedBy(old(phases), old(writers), old(history), p, w)
    {
      StartIsSound(limits, first, disk, writers, history, p, w);
      history := AfterStart(limits, disk, writers, history, p, w);
      phases, writers := phases[p := Transferring], writers[p := w];
    }

    /** A writer, attended or not, writes n more bytes. It touches a finished copy exactly when
        its own has meanwhile been finished, and never in a single history. */
    method Write(p: int, n: nat)
      requires Valid() && p in writers && n <= writers[p].left
      modifies this`disk, this`writers, this`history
      ensures Valid() && disk == Writing(old(disk), old(writers)[p], n)
      ensures writers == old(writers)[p := old(writers)[p].(left := old(writers)[p].left - n)]
      ensures history == old(history).(log := old(history).log +
                           [Wrote(p, old(writers)[p].kind, old(writers)[p].model)])
      ensures BothStay(old(disk), disk) <==>
                n == 0 || !IsDone(Copies(old(disk), old(writers)[p].kind), old(writers)[p].model)
      ensures history.single ==> BothStay(old(disk), disk)
    {
      var w := writers[p];
      ghost var d, ws, h := disk, writers, history;
      history := history.(log := history.log + [Wrote(p, w.kind, w.model)]);
      disk, writers := Writing(disk, w, n), writers[p := w.(left := w.left - n)];
      WriteIsSound(limits, first, d, ws, h, p, n, disk, writers, history);
    }

    /** A transfer ends well: its copy is verified, or its snapshot complete. A process goes on
        under the lock; a child left behind is gone. */
    method Finish(p: int)
      requires Valid() && p in writers
      modifies this`disk, this`phases, this`writers, this`history
      ensures Valid() && disk == Finishing(old(disk), old(writers)[p]) && writers == old(writers) - {p}
      ensures phases == if p in old(phases) then old(phases)[p := Holding] else old(phases)
      ensures history == old(history).(log := old(history).log +
                           [Ended(p, old(writers)[p].kind, old(writers)[p].model, true)])
      ensures BothStay(old(disk), disk)
      ensures IsDone(Copies(disk, old(writers)[p].kind), old(writers)[p].model)
      ensures Bytes(disk.packed) == Bytes(old(disk).packed) && Bytes(disk.hub) == Bytes(old(disk).hub)
    {
      var w := writers[p];
      EndIsSound(limits, first, disk, writers, history, p, true);
      FinishingBytes(disk, w);
      history := history.(log := history.log + [Ended(p, w.kind, w.model, true)]);
      disk, writers := Finishing(disk, w), writers - {p};
      if p in phases {
        phases := phases[p := Holding];
      }
    }

    /** A transfer ends without finishing its copy. What it wrote stays. */
    method Stop(p: int)
      requires Valid() && p in writers
      modifies this`phases, this`writers, this`history
      ensures Valid() && writers == old(writers) - {p}
      ensures phases == if p in old(phases) then old(phases)[p := Holding] else old(phases)
      ensures history == old(history).(log := old(history).log +
                           [Ended(p, old(writers)[p].kind, old(writers)[p].model, false)])
    {
      var w := writers[p];
      EndIsSound(limits, first, disk, writers, history, p, false);
      history := history.(log := history.log + [Ended(p, w.kind, w.model, false)]);
      writers := writers - {p};
      if p in phases {
        phases := phases[p := Holding];
      }
    }

    /** The process returns or raises, in whatever phase it is. Its transfer is over by then: a
        child is killed and waited for before the error goes on. */
    method Leave(p: int)
      requires Valid() && p in phases
      modifies this`lock, this`phases, this`writers, this`history
      ensures Valid() && phases == old(phases) - {p} && writers == old(writers) - {p}
      ensures lock == if old(lock) == Some(p) then None else old(lock)
      ensures history == if p in old(writers) then
                           old(history).(log := old(history).log +
                             [Ended(p, old(writers)[p].kind, old(writers)[p].model, false)])
                         else old(history)
    {
      if p in writers {
        Stop(p);
      }
      if lock == Some(p) {
        lock := None;
      }
      phases := phases - {p};
    }

    /** The process is killed, in whatever phase it is. The lock is free if it had it. A
        download ends with it, but a child that packs goes on writing. */
    method Die(p: int)
      requires Valid() && p in phases
      modifies this`lock, this`phases, this`writers, this`history
      ensures Valid() && phases == old(phases) - {p}
      ensures lock == if old(lock) == Some(p) then None else old(lock)
      ensures writers == if p in old(writers) && old(writers)[p].kind == Hub then old(writers) - {p} else old(writers)
      ensures history == if p in old(writers) && old(writers)[p].kind == Hub then
                           old(history).(log := old(history).log + [Ended(p, Hub, old(writers)[p].model, false)])
                         else old(history)
    {
      if p in writers && writers[p].kind == Hub {
        Stop(p);
      }
      if lock == Some(p) {
        lock := None;
      }
      phases := phases - {p};
    }
  }

  /** In a calm history two transfers never overlap, and a copy is not transferred again after a
      transfer of it ended well. A history with an overlap is not calm. */
  lemma TransfersDoNotOverlap(c: CacheRoot)
    requires c.Valid()
    ensures c.history.calm <==>
              forall i, j :: 0 <= i < j < |c.history.log| && c.history.log[i].Started? && c.history.log[j].Started? ==>
                EndedBefore(c.history.log, i, j)
    ensures c.history.calm ==> Undisturbed(c.history.log) && NeverAgain(c.history.log)
  {
    UnsealHistory(c.limits, c.first, c.disk, c.writers, c.history);
  }

  /** One process at most has a transfer, and in a calm history no one else writes either, nor
      is a copy written that is done. */
  lemma OneTransferAtMost(c: CacheRoot, p: int, q: int)
    requires c.Valid() && p in c.writers && q in c.writers
    ensures p in c.phases && q in c.phases ==> p == q
    ensures c.history.calm ==> p == q && !IsDone(Copies(c.disk, c.writers[p].kind), c.writers[p].model)
  {
    UnsealHistory(c.limits, c.first, c.disk, c.writers, c.history);
    assert p in c.phases ==> c.lock == Some(p);
  }

  /** Nothing that was done has broken a limit, and nothing the writers may still do will, as
      long as every start left room; in a calm history every start did. */
  lemma LimitsHold(c: CacheRoot)
    requires c.Valid()
    ensures c.history.roomy ==> WithinLimits(c.limits, c.first, c.disk) && Room(c.limits, c.disk, c.writers)
    ensures c.history.calm ==> c.history.roomy && c.history.single
  {
    UnsealHistory(c.limits, c.first, c.disk, c.writers, c.history);
  }

  // ----- What children left behind can do --------------------------------------------

  /** Whatever size is published, an install keeps the reserve after all that children may
      still write exactly when there is nothing, no install is allowed, or the store's limit is
      reached first; and the store's limit exactly when the reserve is. It always keeps both
      only in the first two cases. */
  lemma InstallsBesideWriters(l: Limits, free: int, packedBytes: nat, left: nat)
    ensures
      (forall n: nat :: InstallFits(l.reserve, l.storeLimit, free, packedBytes, n) ==> free - left - n >= l.reserve)
      <==>
      || left == 0 || packedBytes > l.storeLimit || free < l.reserve
      || l.storeLimit - packedBytes <= free - left - l.reserve
    ensures
      (forall n: nat ::
        InstallFits(l.reserve, l.storeLimit, free, packedBytes, n) ==> packedBytes + left + n <= l.storeLimit)
      <==>
      || left == 0 || packedBytes > l.storeLimit || free < l.reserve
      || free - l.reserve <= l.storeLimit - packedBytes - left
    ensures
      (forall n: nat :: InstallFits(l.reserve, l.storeLimit, free, packedBytes, n) ==>
        free - left - n >= l.reserve && packedBytes + left + n <= l.storeLimit)
      <==>
      left == 0 || packedBytes > l.storeLimit || free < l.reserve
  {
    if packedBytes <= l.storeLimit && free >= l.reserve {
      var byDisk, byStore := free - l.reserve, l.storeLimit - packedBytes;
      assert InstallFits(l.reserve, l.storeLimit, free, packedBytes, if byDisk <= byStore then byDisk else byStore);
    }
  }

  /** One writer writes all it may. */
  method WriteOut(c: CacheRoot, p: int)
    requires c.Valid() && p in c.writers
    modifies c`disk, c`writers, c`history
    ensures c.Valid() && c.writers == old(c.writers)[p := old(c.writers)[p].(left := 0)]
    ensures c.disk.free == old(c.disk.free) - old(c.writers)[p].left
    ensures Left(c.writers) == Left(old(c.writers)) - old(c.writers)[p].left
  {
    LeftOfUpdate(c.writers, p, c.writers[p].(left := 0));
    c.Write(p, c.writers[p].left);
  }

  /** Every writer writes all it may. The reserve then holds exactly if there was room for all:
      a history that is not roomy can be continued into one that breaks it. */
  method WriteAll(c: CacheRoot)
    requires c.Valid()
    modifies c`disk, c`writers, c`history
    ensures c.Valid() && Left(c.writers) == 0
    ensures c.disk.free == old(c.disk.free) - Left(old(c.writers))
    ensures c.disk.free >= c.limits.reserve <==> old(c.disk.free) - Left(old(c.writers)) >= c.limits.reserve
  {
    var rest := c.writers;
    while rest != map[]
      invariant c.Valid() && Left(c.writers) == Left(rest)
      invariant forall p :: p in rest ==> p in c.writers && c.writers[p] == rest[p]
      invariant c.disk.free - Left(c.writers) == old(c.disk.free) - Left(old(c.writers))
      decreases |rest|
    {
      var p := AnyKey(rest);
      LeftOfUpdate(rest, p, rest[p]);
      WriteOut(c, p);
      rest := rest - {p};
    }
  }

  /** Process p gets the lock and starts an install that the preflight allows. */
  method BeginInstall(c: CacheRoot, p: int, model: string, published: nat)
    requires c.Valid() && c.lock.None? && p !in c.phases && p !in c.writers && !IsDone(c.disk.packed, model)
    requires InstallFits(c.limits.reserve, c.limits.storeLimit, c.disk.free, Bytes(c.disk.packed), published)
    modifies c
    ensures c.Valid() && c.disk == old(c.disk) && c.lock == Some(p) && c.phases == old(c.phases)[p := Transferring]
    ensures c.writers == old(c.writers)[p := Writer(Packed, model, published)]
    ensures c.history == AfterStart(c.limits, c.disk, old(c.writers), old(c.history), p,
                                    Writer(Packed, model, published))
  {
    c.Request(p);
    c.Acquire(p);
    var plan := c.PlanInstall(p, model, published, true, false);
    assert plan == Transfer;
    assert c.phases == old(c.phases)[p := Transferring];
  }

  /** An installer is killed after a third of its bytes; its child goes on. */
  method InstallerIsKilled() returns (c: CacheRoot)
    ensures fresh(c) && c.Valid() && c.limits == Limits(20, 1000) && c.first.free == 130 && c.disk.free == 110
    ensures c.lock.None? && c.phases == map[] && c.writers == map[1 := Writer(Packed, "model", 40)]
    ensures c.history.log == [Started(1, Packed, "model"), Wrote(1, Packed, "model")]
    ensures Bytes(c.disk.packed) == 20 && !IsDone(c.disk.packed, "model")
  {
    c := new CacheRoot(20, 1000, 1000, 130, map[], map[]);
    BeginInstall(c, 1, "model", 60);
    WritingBytes(c.disk, c.writers[1], 20);
    c.Write(1, 20);
    c.Die(1);
  }

  /** A second one gets the lock, and the preflight allows it. */
  method InstallBesideChild() returns (c: CacheRoot)
    ensures fresh(c) && c.Valid() && c.limits == Limits(20, 1000) && c.first.free == 130 && c.disk.free == 110
    ensures c.history.log == [Started(1, Packed, "model"), Wrote(1, Packed, "model"), Started(2, Packed, "model")]
    ensures c.writers == map[1 := Writer(Packed, "model", 40), 2 := Writer(Packed, "model", 60)]
    ensures !c.history.calm
  {
    c := InstallerIsKilled();
    assert 1 in c.writers;
    BeginInstall(c, 2, "model", 60);
  }

  lemma TouchedAgain(log: seq<Step>, i: nat, j: nat)
    requires i < j < |log| && log[i].Ended? && log[i].done && SameCopy(log[i], log[j])
    ensures !NeverAgain(log)
  {
  }

  /** The child finishes the copy that the second installer is writing. */
  method ChildFinishes() returns (c: CacheRoot)
    ensures fresh(c) && c.Valid() && c.limits == Limits(20, 1000) && c.first.free == 130 && c.disk.free == 70
    ensures |c.history.log| == 5 && c.history.log[4] == Ended(1, Packed, "model", true)
    ensures 2 in c.writers && c.writers[2] == Writer(Packed, "model", 60) && IsDone(c.disk.packed, "model")
    ensures !c.history.calm
  {
    c := InstallBesideChild();
    c.Write(1, 40);
    c.Finish(1);
  }

  /** Both have written: the transfers overlap, the reserve is broken, and a copy was written to
      after it was finished. */
  method ChildBreaksTheReserve() returns (c: CacheRoot)
    ensures c.Valid() && c.disk.free < c.limits.reserve <= c.first.free
    ensures !OneAtATime(c.history.log) && !NeverAgain(c.history.log)
  {
    c := ChildFinishes();
    c.Write(2, 60);
    TransfersDoNotOverlap(c);
    TouchedAgain(c.history.log, 4, 5);
  }

  // ----- The limit of the whole cache ------------------------------------------------

  /** The packed limit does not see the Hub store. Whatever size is published, an install keeps
      the whole cache within the limit exactly when none can fit, or when it is within it now
      and either the Hub store is empty or the disk runs out first. */
  lemma InstallsKeepWholeLimit(reserve: nat, storeLimit: nat, free: int, packedBytes: nat, hubBytes: nat)
    ensures
      (forall n: nat ::
        InstallFits(reserve, storeLimit, free, packedBytes, n) ==> packedBytes + hubBytes + n <= storeLimit)
      <==>
      || packedBytes > storeLimit || free < reserve
      || (&& packedBytes + hubBytes <= storeLimit
          && (hubBytes == 0 || free - reserve <= storeLimit - packedBytes - hubBytes))
  {
    if packedBytes <= storeLimit && free >= reserve {
      var most: nat := if free - reserve <= storeLimit - packedBytes then free - reserve else storeLimit - packedBytes;
      assert InstallFits(reserve, storeLimit, free, packedBytes, most);
    }
  }

  /** One whole install that nothing disturbs. */
  method Install(c: CacheRoot, p: int, model: string, published: nat)
    requires c.Valid() && c.lock.None? && p !in c.phases && p !in c.writers && !IsDone(c.disk.packed, model)
    requires InstallFits(c.limits.reserve, c.limits.storeLimit, c.disk.free, Bytes(c.disk.packed), published)
    modifies c
    ensures c.Valid() && c.lock.None? && c.disk.free == old(c.disk.free) - published
    ensures IsDone(c.disk.packed, model) && c.disk.hub == old(c.disk.hub)
    ensures Bytes(c.disk.packed) == old(Bytes(c.disk.packed)) + published
  {
    WritingBytes(c.disk, Writer(Packed, model, published), published);
    BeginInstall(c, p, model, published);
    c.Write(p, published);
    c.Finish(p);
    c.Leave(p);
  }

  /** A run that goes over: a cache within its limit, with one finished Hub snapshot, installs
      a model the preflight allows, and ends over the limit. */
  method InstallOverfillsTheCache() returns (c: CacheRoot)
    ensures c.Valid() && c.lock.None? && c.disk.free >= c.limits.reserve
    ensures Bytes(c.first.packed) + Bytes(c.first.hub) <= c.limits.storeLimit < Bytes(c.disk.packed) + Bytes(c.disk.hub)
    ensures IsDone(c.disk.packed, "model") && IsDone(c.disk.hub, "source")
  {
    BytesOfUpdate(map[], "source", Copy(100, true));
    c := new CacheRoot(0, 120, 1000, 1000, map[], map["source" := Copy(100, true)]);
    Install(c, 1, "model", 100);
  }
}

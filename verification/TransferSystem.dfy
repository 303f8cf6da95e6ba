/** Both ends of a file connection together: any interleaving of many transfers, with the bytes
    of the socket in between. The same machine serves uploads and downloads, whose two ends take
    the same steps on their tables. */
module TransferSystem {
  import opened Options
  import opened Parser
  import opened FileChunks
  import opened Transfer
  import opened FileSessions

  type Entry = (FileId, string)

  datatype Message = Message(id: FileId, chunk: FileChunk, version: Uint32, padding: char)

  /** The state of the two programs. */
  datatype State = State(
    progress: map<FileId, nat>,      // sender's table
    chains: map<FileId, Chain>,      // chains whose completion callback is still to come
    wire: string,                    // bytes written and not yet read
    files: map<FileId, Incoming>,    // receiver's table
    saved: multiset<Entry>)          // files the receiver has stored

  /** What has happened, for the statement of the theorems only. */
  datatype History = History(
    inFlight: seq<Message>,             // the messages whose bytes are on the wire
    live: map<FileId, string>,          // started, neither saved nor given up by the receiver
    plans: map<FileId, seq<FileChunk>>, // the chunks of each live file
    sent: map<FileId, nat>,             // how many of them have been written
    halted: set<FileId>,                // ids whose sender has been stopped
    started: multiset<Entry>,
    stopped: multiset<Entry>)

  datatype System = System(st: State, h: History)

  datatype Step =
    | Start(id: FileId, content: string, garbage: nat -> Buffer, version: Uint32, padding: char)
    | WriteDone(id: FileId, version: Uint32, padding: char)
    | Deliver
    | StopSender(id: FileId)
    | StopReceiver(id: FileId)

  ghost function Initial(): System {
    System(State(map[], map[], "", map[], multiset{}),
           History([], map[], map[], map[], {}, multiset{}, multiset{}))
  }

  ghost function PlanOf(content: string, garbage: nat -> Buffer): seq<FileChunk> {
    seq(CalcAmountOfChunks(|content|),
        i requires 0 <= i < CalcAmountOfChunks(|content|) => ChunkAt(content, garbage, i))
  }

  ghost function NewChain(id: FileId, content: string, garbage: nat -> Buffer): Chain {
    var plan := PlanOf(content, garbage);
    Chain(id, |content|, map i | i in Indices(|plan|) :: plan[i])
  }

  function FrameBytes(m: Message): string { ChunkFrame(m.id, m.chunk, m.version, m.padding) }

  /** A transfer starts for a non-empty file within the limit whose id is idle at both ends. */
  ghost predicate Enabled(s: System, step: Step) {
    match step
    case Start(id, content, _, _, _) =>
      && 0 < |content| <= MAX_FILE_SIZE
      && id !in s.st.chains && id !in s.st.progress && id !in s.st.files
      && forall m :: m in s.h.inFlight ==> m.id != id
    case WriteDone(id, _, _) => id in s.st.chains
    case Deliver => ReadFrame(s.st.wire).Got?
    case StopSender(_) => true
    case StopReceiver(_) => true
  }

  /** What the receiver stores for a completed file. */
  ghost function Stored(file: Incoming): string {
    if HasAllChunks(file.chunks, CalcAmountOfChunks(file.fileSize)) then Reassemble(file.chunks, file.fileSize) else ""
  }

  ghost function ApplyState(st: State, step: Step): State {
    match step
    case Start(id, content, garbage, version, padding) =>
      var plan := PlanOf(content, garbage);
      if plan == [] then st else
      st.(progress := st.progress[id := 0],
          chains := st.chains[id := NewChain(id, content, garbage)],
          wire := st.wire + ChunkFrame(id, plan[0], version, padding),
          files := st.files[id := Incoming(|content|, map[])])
    case WriteDone(id, version, padding) =>
      if id !in st.chains then st else
      var (progress, chain, next) := ChunkSent(st.progress, st.chains[id]);
      st.(progress := progress,
          chains := if next.Some? then st.chains[id := chain] else st.chains - {id},
          wire := st.wire + FrameOf(id, next, version, padding))
    case Deliver =>
      (match ReadFrame(st.wire)
       case NeedMore => st
       case Got(body, rest) =>
         match DecodeChunk(body)
         case None => st.(wire := rest)
         case Some((id, chunk)) =>
           var (files, outcome) := Receive(st.files, id, chunk);
           st.(wire := rest, files := files,
               saved := if outcome.Completed? then st.saved + multiset{(id, Stored(outcome.file))} else st.saved))
    case StopSender(id) => st.(progress := st.progress - {id})
    case StopReceiver(id) => st.(files := st.files - {id})
  }

  ghost function ApplyHistory(s: System, step: Step): History {
    var h := s.h;
    match step
    case Start(id, content, garbage, version, padding) =>
      var plan := PlanOf(content, garbage);
      if plan == [] then h else
      h.(inFlight := h.inFlight + [Message(id, plan[0], version, padding)],
         live := h.live[id := content], plans := h.plans[id := plan], sent := h.sent[id := 1],
         halted := h.halted - {id}, started := h.started + multiset{(id, content)})
    case WriteDone(id, version, padding) =>
      if id !in s.st.chains then h else
      (match ChunkSent(s.st.progress, s.st.chains[id]).2
       case None => h
       case Some(chunk) =>
         h.(inFlight := h.inFlight + [Message(id, chunk, version, padding)],
            sent := if id in h.sent then h.sent[id := h.sent[id] + 1] else h.sent))
    case Deliver =>
      if h.inFlight == [] then h else
      var m := h.inFlight[0];
      h.(inFlight := h.inFlight[1..],
         live := if Receive(s.st.files, m.id, m.chunk).1.Completed? then h.live - {m.id} else h.live)
    case StopSender(id) => h.(halted := h.halted + {id})
    case StopReceiver(id) =>
      h.(live := h.live - {id},
         stopped := if id in h.live then h.stopped + multiset{(id, h.live[id])} else h.stopped)
  }

  ghost function Apply(s: System, step: Step): System {
    System(ApplyState(s.st, step), ApplyHistory(s, step))
  }

  ghost predicate Admissible(s: System, steps: seq<Step>)
    decreases |steps|
  {
    steps == [] || (Enabled(s, steps[0]) && Admissible(Apply(s, steps[0]), steps[1..]))
  }

  ghost function Execute(s: System, steps: seq<Step>): System
    decreases |steps|
  {
    if steps == [] then s else Execute(Apply(s, steps[0]), steps[1..])
  }

  // ------------------------------------------------------------ invariant

  ghost predicate Encodable(chunk: FileChunk) { chunk.index < 0x1_0000_0000_0000_0000 }

  ghost function Bytes(messages: seq<Message>): string {
    if messages == [] then "" else FrameBytes(messages[0]) + Bytes(messages[1..])
  }

  /** The chunks of one file among the messages. */
  ghost function Flight(messages: seq<Message>, id: FileId): seq<FileChunk> {
    if messages == [] then []
    else (if messages[0].id == id then [messages[0].chunk] else []) + Flight(messages[1..], id)
  }

  /** How often a live file is still to be accounted for. */
  ghost function Pending(live: map<FileId, string>, id: FileId, content: string): nat {
    if id in live && live[id] == content then 1 else 0
  }

  /** `plan` is a splitting of `content`. */
  ghost predicate Splits(plan: seq<FileChunk>, content: string) {
    && 0 < |content| <= MAX_FILE_SIZE && |plan| == CalcAmountOfChunks(|content|)
    && (forall i :: 0 <= i < |plan| ==> plan[i].index == i)
    && forall k :: 0 <= k < |content| ==>
         k / FILE_CHUNK_SIZE < |plan| && plan[k / FILE_CHUNK_SIZE].data[k % FILE_CHUNK_SIZE] == content[k]
  }

  /** The receiver holds a first part of the plan. */
  ghost predicate HoldsPrefix(file: Incoming, plan: seq<FileChunk>) {
    && |file.chunks| < |plan| && file.chunks.Keys == Indices(|file.chunks|)
    && forall i :: i in file.chunks ==> file.chunks[i] == plan[i]
  }

  /** The sender has written a first part of the plan, and unless it was stopped its chain will
      write the rest. */
  ghost predicate SenderOk(st: State, h: History, id: FileId)
    requires id in h.plans && id in h.sent
  {
    && 1 <= h.sent[id] <= |h.plans[id]|
    && (id in st.progress ==>
          id in st.chains && st.progress[id] == h.sent[id] - 1 &&
          st.chains[id].id == id && OnTrack(st.chains[id], h.plans[id], st.progress[id]))
    && (id !in st.progress && id !in h.halted ==> h.sent[id] == |h.plans[id]|)
  }

  /** A live file: what has arrived, what is on the wire and what is still to be written are
      three consecutive parts of its plan. */
  ghost predicate LiveOk(st: State, h: History, id: FileId)
    requires id in h.live
  {
    && id in h.plans && id in h.sent && id in st.files
    && Splits(h.plans[id], h.live[id])
    && st.files[id].fileSize == |h.live[id]|
    && HoldsPrefix(st.files[id], h.plans[id])
    && SenderOk(st, h, id)
    && |st.files[id].chunks| <= h.sent[id]
    && Flight(h.inFlight, id) == h.plans[id][|st.files[id].chunks|..h.sent[id]]
  }

  ghost predicate WireOk(s: System) {
    && s.st.wire == Bytes(s.h.inFlight)
    && forall m :: m in s.h.inFlight ==> Encodable(m.chunk)
  }

  ghost predicate ChainOk(chain: Chain, id: FileId) {
    chain.id == id && forall i :: i in chain.remaining ==> Encodable(chain.remaining[i])
  }

  ghost predicate ChainsOk(s: System) {
    && s.st.progress.Keys <= s.st.chains.Keys
    && forall id :: id in s.st.chains ==> ChainOk(s.st.chains[id], id)
  }

  ghost predicate LivesOk(s: System) {
    && s.st.files.Keys == s.h.live.Keys
    && forall id :: id in s.h.live ==> LiveOk(s.st, s.h, id)
  }

  /** Every start is matched by one save, one receiver stop, or a live file. */
  ghost predicate Balanced(s: System) {
    forall id: FileId, content: string ::
      s.h.started[(id, content)] ==
      s.st.saved[(id, content)] + s.h.stopped[(id, content)] + Pending(s.h.live, id, content)
  }

  ghost predicate Invariant(s: System) {
    WireOk(s) && ChainsOk(s) && LivesOk(s) && Balanced(s)
  }

  // -------------------------------------------------------------- lemmas

  lemma {:induction false} BytesAppend(messages: seq<Message>, m: Message)
    ensures Bytes(messages + [m]) == Bytes(messages) + FrameBytes(m)
  {
    if messages == [] {
      assert [m][1..] == [];
    } else {
      BytesAppend(messages[1..], m);
      assert (messages + [m])[1..] == messages[1..] + [m];
      Assoc(FrameBytes(messages[0]), Bytes(messages[1..]), FrameBytes(m));
    }
  }

  lemma Assoc(a: string, b: string, c: string)
    ensures a + (b + c) == (a + b) + c
  {
  }

  lemma {:induction false} FlightAppend(messages: seq<Message>, m: Message, id: FileId)
    ensures Flight(messages + [m], id) == Flight(messages, id) + if m.id == id then [m.chunk] else []
  {
    if messages == [] {
      assert [m][1..] == [];
    } else {
      FlightAppend(messages[1..], m, id);
      assert (messages + [m])[1..] == messages[1..] + [m];
    }
  }

  lemma {:induction false} NoFlight(messages: seq<Message>, id: FileId)
    requires forall m :: m in messages ==> m.id != id
    ensures Flight(messages, id) == []
  {
    if messages != [] {
      NoFlight(messages[1..], id);
    }
  }

  lemma PlanSplits(id: FileId, content: string, garbage: nat -> Buffer)
    requires 0 < |content| <= MAX_FILE_SIZE
    ensures var plan := PlanOf(content, garbage);
            plan != [] && Splits(plan, content) && OnTrack(NewChain(id, content, garbage), plan, 0)
  {
    var plan := PlanOf(content, garbage);
    forall k | 0 <= k < |content|
      ensures k / FILE_CHUNK_SIZE < |plan| && plan[k / FILE_CHUNK_SIZE].data[k % FILE_CHUNK_SIZE] == content[k]
    {
      ByteOfChunk(content, garbage, k);
    }
  }

  /** A file whose part of the state has not changed is still in order. */
  lemma LiveFrame(s: System, t: System, x: FileId)
    requires x in s.h.live && LiveOk(s.st, s.h, x)
    requires x in t.h.live && t.h.live[x] == s.h.live[x]
    requires x in s.h.plans ==> x in t.h.plans && t.h.plans[x] == s.h.plans[x]
    requires x in s.h.sent ==> x in t.h.sent && t.h.sent[x] == s.h.sent[x]
    requires x in s.st.files ==> x in t.st.files && t.st.files[x] == s.st.files[x]
    requires x in t.st.progress <==> x in s.st.progress
    requires x in s.st.progress ==> t.st.progress[x] == s.st.progress[x] &&
                                    x in t.st.chains && t.st.chains[x] == s.st.chains[x]
    requires x in s.h.halted ==> x in t.h.halted
    requires Flight(t.h.inFlight, x) == Flight(s.h.inFlight, x)
    ensures LiveOk(t.st, t.h, x)
  {
    hide Splits, OnTrack, HoldsPrefix, Flight;
  }

  // ---- Start

  lemma StartKeeps(s: System, step: Step)
    requires Invariant(s) && step.Start? && Enabled(s, step)
    ensures Invariant(Apply(s, step))
  {
    PlanSplits(step.id, step.content, step.garbage);
    StartWire(s, step);
    StartLives(s, step);
    StartRest(s, step);
  }

  lemma StartWire(s: System, step: Step)
    requires WireOk(s) && step.Start? && PlanOf(step.content, step.garbage) != []
    ensures WireOk(Apply(s, step))
  {
    hide ChunkFrame, Bytes;
    BytesAppend(s.h.inFlight, Message(step.id, PlanOf(step.content, step.garbage)[0], step.version, step.padding));
  }

  lemma StartLives(s: System, step: Step)
    requires LivesOk(s) && step.Start? && Enabled(s, step)
    requires Splits(PlanOf(step.content, step.garbage), step.content) && PlanOf(step.content, step.garbage) != []
    requires OnTrack(NewChain(step.id, step.content, step.garbage), PlanOf(step.content, step.garbage), 0)
    ensures LivesOk(Apply(s, step))
  {
    hide ChunkFrame, PlanOf, Splits, OnTrack, HoldsPrefix;
    var t := Apply(s, step);
    var plan := PlanOf(step.content, step.garbage);
    var m := Message(step.id, plan[0], step.version, step.padding);
    forall x | x in t.h.live ensures LiveOk(t.st, t.h, x) {
      FlightAppend(s.h.inFlight, m, x);
      if x == step.id {
        NoFlight(s.h.inFlight, x);
        EmptyHolds(|step.content|, plan);
        assert plan[0..1] == [plan[0]];
      } else {
        LiveFrame(s, t, x);
      }
    }
  }

  lemma EmptyHolds(size: nat, plan: seq<FileChunk>)
    requires plan != []
    ensures HoldsPrefix(Incoming(size, map[]), plan)
  {
    assert Indices(0) == {};
  }

  lemma StartRest(s: System, step: Step)
    requires ChainsOk(s) && LivesOk(s) && Balanced(s) && step.Start? && Enabled(s, step)
    requires OnTrack(NewChain(step.id, step.content, step.garbage), PlanOf(step.content, step.garbage), 0)
    requires Splits(PlanOf(step.content, step.garbage), step.content) && PlanOf(step.content, step.garbage) != []
    ensures ChainsOk(Apply(s, step)) && Balanced(Apply(s, step))
  {
    hide ChunkFrame, PlanOf, LiveOk;
    AmountIsCover(|step.content|, CalcAmountOfChunks(|step.content|));
    assert ChainOk(NewChain(step.id, step.content, step.garbage), step.id);
  }

  // ---- WriteDone

  lemma WriteDoneKeeps(s: System, step: Step)
    requires Invariant(s) && step.WriteDone? && Enabled(s, step)
    ensures Invariant(Apply(s, step))
  {
    NextIsEncodable(s, step.id);
    WriteDoneWire(s, step);
    WriteDoneLives(s, step);
    WriteDoneChains(s, step);
  }

  lemma NextIsEncodable(s: System, id: FileId)
    requires ChainsOk(s) && id in s.st.chains
    ensures var next := ChunkSent(s.st.progress, s.st.chains[id]).2; next.Some? ==> Encodable(next.value)
  {
  }

  lemma WriteDoneWire(s: System, step: Step)
    requires WireOk(s) && step.WriteDone? && Enabled(s, step)
    requires var next := ChunkSent(s.st.progress, s.st.chains[step.id]).2; next.Some? ==> Encodable(next.value)
    ensures WireOk(Apply(s, step))
  {
    hide ChunkFrame, Bytes, ChunkSent;
    var next := ChunkSent(s.st.progress, s.st.chains[step.id]).2;
    if next.Some? {
      BytesAppend(s.h.inFlight, Message(step.id, next.value, step.version, step.padding));
    } else {
      assert s.st.wire + "" == s.st.wire;
    }
  }

  lemma WriteDoneLives(s: System, step: Step)
    requires LivesOk(s) && ChainsOk(s) && step.WriteDone? && Enabled(s, step)
    ensures LivesOk(Apply(s, step))
  {
    hide ChunkFrame, Splits, OnTrack, HoldsPrefix;
    var id, t := step.id, Apply(s, step);
    var next := ChunkSent(s.st.progress, s.st.chains[id]).2;
    forall x | x in t.h.live ensures LiveOk(t.st, t.h, x) {
      if next.Some? {
        FlightAppend(s.h.inFlight, Message(id, next.value, step.version, step.padding), x);
      }
      if x == id {
        WriteDoneOwn(s, step);
      } else {
        LiveFrame(s, t, x);
      }
    }
  }

  lemma WriteDoneOwn(s: System, step: Step)
    requires step.WriteDone? && Enabled(s, step) && step.id in s.h.live && LiveOk(s.st, s.h, step.id)
    requires s.st.chains[step.id].id == step.id
    ensures LiveOk(Apply(s, step).st, Apply(s, step).h, step.id)
  {
    hide ChunkFrame, Splits, HoldsPrefix, OnTrack;
    var id := step.id;
    var chain, plan := s.st.chains[id], s.h.plans[id];
    if id in s.st.progress {
      ChunkSentKeepsTrack(s.st.progress, chain, plan);
      OnTrackBound(chain, plan, s.st.progress[id]);
      var next := ChunkSent(s.st.progress, chain).2;
      if next.Some? {
        FlightAppend(s.h.inFlight, Message(id, next.value, step.version, step.padding), id);
        SliceSnoc(plan, |s.st.files[id].chunks|, s.h.sent[id]);
      }
    }
  }

  lemma OnTrackBound(chain: Chain, plan: seq<FileChunk>, p: nat)
    requires OnTrack(chain, plan, p)
    ensures p < |plan|
  {
  }

  lemma SliceSnoc(plan: seq<FileChunk>, r: nat, n: nat)
    requires r <= n < |plan|
    ensures plan[r..n] + [plan[n]] == plan[r..n + 1]
  {
  }

  lemma WriteDoneChains(s: System, step: Step)
    requires ChainsOk(s) && Balanced(s) && step.WriteDone? && Enabled(s, step)
    ensures ChainsOk(Apply(s, step)) && Balanced(Apply(s, step))
  {
    hide ChunkFrame;
    var chain := s.st.chains[step.id];
    assert ChainOk(chain, step.id);
    assert ChainOk(ChunkSent(s.st.progress, chain).1, step.id);
  }

  // ---- Deliver

  lemma DeliverKeeps(s: System, step: Step)
    requires Invariant(s) && step.Deliver? && Enabled(s, step)
    ensures Invariant(Apply(s, step))
  {
    DeliverReadsHead(s);
    DeliverEffect(s);
    DeliverLives(s);
    DeliverBalance(s);
  }

  /** The next frame on the wire is the oldest message, and it decodes to that message. */
  lemma DeliverReadsHead(s: System)
    requires WireOk(s) && Enabled(s, Deliver)
    ensures s.h.inFlight != []
    ensures var m := s.h.inFlight[0];
            ReadFrame(s.st.wire) == Got(EncodeChunk(m.id, m.chunk, m.padding), Bytes(s.h.inFlight[1..])) &&
            DecodeChunk(EncodeChunk(m.id, m.chunk, m.padding)) == Some((m.id, m.chunk))
  {
    hide EncodeChunk, Frame, DecodeChunk;
    assert ReadFrame("") == NeedMore;
    var m := s.h.inFlight[0];
    ReadFrameOfFrame(Packet(m.version, EncodeChunk(m.id, m.chunk, m.padding)), Bytes(s.h.inFlight[1..]));
    ChunkRoundTrip(m.id, m.chunk, m.padding);
  }

  lemma DeliverEffect(s: System)
    requires WireOk(s) && ChainsOk(s) && Enabled(s, Deliver)
    ensures s.h.inFlight != [] && WireOk(Apply(s, Deliver)) && ChainsOk(Apply(s, Deliver))
    ensures var m := s.h.inFlight[0]; var t := Apply(s, Deliver);
            var (files, outcome) := Receive(s.st.files, m.id, m.chunk);
            t.st.progress == s.st.progress && t.st.chains == s.st.chains && t.st.files == files &&
            t.st.saved
            == (if outcome.Completed? then s.st.saved + multiset{(m.id, Stored(outcome.file))} else s.st.saved)
  {
    hide EncodeChunk, ReadFrame, DecodeChunk, Bytes, Receive, Stored;
    DeliverReadsHead(s);
  }

  /** The chunk that the oldest message adds to its file. */
  ghost function Extended(file: Incoming, chunk: FileChunk): Incoming {
    file.(chunks := file.chunks[|file.chunks| := chunk])
  }

  /** The oldest message of a live file is the next chunk of its plan. */
  lemma HeadIsNext(s: System)
    requires s.h.inFlight != [] && s.h.inFlight[0].id in s.h.live
    requires LiveOk(s.st, s.h, s.h.inFlight[0].id)
    ensures var m := s.h.inFlight[0]; var file, plan := s.st.files[m.id], s.h.plans[m.id];
            |file.chunks| < s.h.sent[m.id] <= |plan| && m.chunk == plan[|file.chunks|] &&
            Flight(s.h.inFlight[1..], m.id) == plan[|file.chunks| + 1..s.h.sent[m.id]]
  {
    hide Splits, OnTrack, HoldsPrefix;
    var m := s.h.inFlight[0];
    HeadOfSlice(m.chunk, Flight(s.h.inFlight[1..], m.id), s.h.plans[m.id], |s.st.files[m.id].chunks|, s.h.sent[m.id]);
  }

  /** It extends the part held, and the last one completes the file with its original content. */
  lemma DeliverOwn(s: System)
    requires s.h.inFlight != [] && s.h.inFlight[0].id in s.h.live
    requires LiveOk(s.st, s.h, s.h.inFlight[0].id)
    ensures var m := s.h.inFlight[0];
            var file' := Extended(s.st.files[m.id], m.chunk);
            |file'.chunks| == |s.st.files[m.id].chunks| + 1 &&
            if |file'.chunks| == |s.h.plans[m.id]|
            then Receive(s.st.files, m.id, m.chunk) == (s.st.files - {m.id}, Completed(file')) &&
                 Stored(file') == s.h.live[m.id]
            else Receive(s.st.files, m.id, m.chunk) == (s.st.files[m.id := file'], Outcome.Stored) &&
                 HoldsPrefix(file', s.h.plans[m.id])
  {
    HeadIsNext(s);
    hide Splits, Stored, SenderOk, HoldsPrefix, Receive, Flight, Extended;
    var m := s.h.inFlight[0];
    DeliverNext(s.st.files, m.id, s.h.plans[m.id], s.h.live[m.id], m.chunk);
  }

  lemma HeadOfSlice(chunk: FileChunk, later: seq<FileChunk>, plan: seq<FileChunk>, r: nat, n: nat)
    requires r <= n <= |plan| && [chunk] + later == plan[r..n]
    ensures r < n && chunk == plan[r] && later == plan[r + 1..n]
  {
    var all := [chunk] + later;
    assert all[0] == chunk && all[1..] == later;
    assert |plan[r..n]| == n - r;
  }

  lemma DeliverNext(files: map<FileId, Incoming>, id: FileId, plan: seq<FileChunk>, content: string, chunk: FileChunk)
    requires id in files && Splits(plan, content) && HoldsPrefix(files[id], plan)
    requires files[id].fileSize == |content| && chunk == plan[|files[id].chunks|]
    ensures var file' := Extended(files[id], chunk);
            |file'.chunks| == |files[id].chunks| + 1 &&
            if |file'.chunks| == |plan|
            then Receive(files, id, chunk) == (files - {id}, Completed(file')) && Stored(file') == content
            else Receive(files, id, chunk) == (files[id := file'], Outcome.Stored) && HoldsPrefix(file', plan)
  {
    hide Stored;
    var file := files[id];
    PrefixGrows(file, plan, chunk);
    if |file.chunks| + 1 == |plan| {
      FullPlanIsContent(Extended(file, chunk), plan, content);
    }
  }

  /** A file that has received the next chunk of its plan is still in order. */
  lemma LiveAdvance(s: System, t: System, x: FileId, chunk: FileChunk)
    requires x in s.h.live && LiveOk(s.st, s.h, x)
    requires x in t.h.live && t.h.live[x] == s.h.live[x]
    requires t.h.plans == s.h.plans && t.h.sent == s.h.sent && t.h.halted == s.h.halted
    requires t.st.progress == s.st.progress && t.st.chains == s.st.chains
    requires x in t.st.files && t.st.files[x] == Extended(s.st.files[x], chunk)
    requires HoldsPrefix(t.st.files[x], s.h.plans[x])
    requires |t.st.files[x].chunks| <= s.h.sent[x] <= |s.h.plans[x]|
    requires Flight(t.h.inFlight, x) == s.h.plans[x][|t.st.files[x].chunks|..s.h.sent[x]]
    ensures LiveOk(t.st, t.h, x)
  {
    hide Splits, OnTrack, HoldsPrefix, Flight;
  }

  /** The delivered file's own invariant afterwards. */
  lemma DeliverLiveOwn(s: System)
    requires WireOk(s) && ChainsOk(s) && Enabled(s, Deliver)
    requires s.h.inFlight != [] && s.h.inFlight[0].id in s.h.live
    requires LiveOk(s.st, s.h, s.h.inFlight[0].id) && s.h.inFlight[0].id in Apply(s, Deliver).h.live
    ensures var id := s.h.inFlight[0].id; var t := Apply(s, Deliver);
            LiveOk(t.st, t.h, id)
  {
    DeliverEffect(s);
    HeadIsNext(s);
    DeliverOwn(s);
    var m, t := s.h.inFlight[0], Apply(s, Deliver);
    hide ApplyState, Receive, Splits, Stored, WireOk, ChainsOk, LiveOk, Flight, HoldsPrefix, Extended;
    LiveAdvance(s, t, m.id, m.chunk);
  }

  lemma DeliverLives(s: System)
    requires WireOk(s) && ChainsOk(s) && LivesOk(s) && Enabled(s, Deliver)
    ensures LivesOk(Apply(s, Deliver))
  {
    DeliverEffect(s);
    var m, t := s.h.inFlight[0], Apply(s, Deliver);
    DeliverKeys(s);
    hide ApplyState, Receive, WireOk, ChainsOk, LiveOk;
    forall x | x in t.h.live ensures LiveOk(t.st, t.h, x) {
      if x == m.id {
        DeliverLiveOwn(s);
      } else {
        DeliverOther(s, x);
      }
    }
  }

  lemma DeliverHistory(s: System, x: FileId)
    requires s.h.inFlight != [] && x != s.h.inFlight[0].id && x in s.h.live
    ensures var h := Apply(s, Deliver).h;
            h == s.h.(inFlight := s.h.inFlight[1..], live := h.live) && x in h.live && h.live[x] == s.h.live[x] &&
            Flight(h.inFlight, x) == Flight(s.h.inFlight, x)
  {
    hide Receive, ApplyState;
  }

  lemma DeliverOther(s: System, x: FileId)
    requires WireOk(s) && ChainsOk(s) && LivesOk(s) && Enabled(s, Deliver)
    requires s.h.inFlight != [] && x != s.h.inFlight[0].id && x in s.h.live
    ensures var t := Apply(s, Deliver); x in t.h.live && LiveOk(t.st, t.h, x)
  {
    DeliverEffect(s);
    var m, t := s.h.inFlight[0], Apply(s, Deliver);
    ReceiveTouchesOwn(s.st.files, m.id, m.chunk, x);
    assert LiveOk(s.st, s.h, x);
    DeliverHistory(s, x);
    hide Apply, ApplyState, ApplyHistory, Receive, WireOk, ChainsOk, LiveOk, LivesOk, Flight;
    LiveFrame(s, t, x);
  }

  lemma ReceiveTouchesOwn(files: map<FileId, Incoming>, id: FileId, chunk: FileChunk, x: FileId)
    ensures x != id ==> var files' := Receive(files, id, chunk).0;
              (x in files' <==> x in files) && (x in files ==> files'[x] == files[x])
    ensures var (files', outcome) := Receive(files, id, chunk);
            files'.Keys == if outcome.Completed? then files.Keys - {id} else files.Keys
  {
  }

  lemma DeliverKeys(s: System)
    requires WireOk(s) && ChainsOk(s) && LivesOk(s) && Enabled(s, Deliver)
    ensures var t := Apply(s, Deliver); t.st.files.Keys == t.h.live.Keys && t.h.live.Keys <= s.h.live.Keys
  {
    DeliverEffect(s);
    var m := s.h.inFlight[0];
    ReceiveTouchesOwn(s.st.files, m.id, m.chunk, m.id);
    hide ApplyState, Receive, WireOk, ChainsOk, LiveOk;
  }

  lemma UnknownIsIgnored(files: map<FileId, Incoming>, id: FileId, chunk: FileChunk)
    ensures id !in files ==> Receive(files, id, chunk) == (files, FileUnknown)
  {
  }

  /** A live file that is saved moves from one side of the balance to the other. */
  lemma BalanceMoves(s: System, t: System, id: FileId)
    requires Balanced(s) && id in s.h.live
    requires t.h.started == s.h.started && t.h.stopped == s.h.stopped && t.h.live == s.h.live - {id}
    requires t.st.saved == s.st.saved + multiset{(id, s.h.live[id])}
    ensures Balanced(t)
  {
  }

  lemma DeliverBalance(s: System)
    requires WireOk(s) && ChainsOk(s) && LivesOk(s) && Balanced(s) && Enabled(s, Deliver)
    ensures Balanced(Apply(s, Deliver))
  {
    DeliverEffect(s);
    var m, t := s.h.inFlight[0], Apply(s, Deliver);
    UnknownIsIgnored(s.st.files, m.id, m.chunk);
    if m.id in s.h.live {
      assert LiveOk(s.st, s.h, m.id);
      DeliverOwn(s);
      hide ApplyState, Receive, LiveOk, Stored, WireOk, ChainsOk, HoldsPrefix, Extended, Balanced;
      if Receive(s.st.files, m.id, m.chunk).1.Completed? {
        BalanceMoves(s, t, m.id);
      } else {
        BalanceStays(s, t);
      }
    } else {
      hide ApplyState, Receive, LiveOk, Stored, WireOk, ChainsOk, HoldsPrefix, Extended, Balanced;
      BalanceStays(s, t);
    }
  }

  lemma BalanceStays(s: System, t: System)
    requires Balanced(s)
    requires t.h.started == s.h.started && t.h.stopped == s.h.stopped && t.h.live == s.h.live
    requires t.st.saved == s.st.saved
    ensures Balanced(t)
  {
  }

  lemma PrefixGrows(file: Incoming, plan: seq<FileChunk>, chunk: FileChunk)
    requires HoldsPrefix(file, plan) && chunk == plan[|file.chunks|]
    ensures var chunks := file.chunks[|file.chunks| := chunk];
            |chunks| == |file.chunks| + 1 && chunks.Keys == Indices(|chunks|) &&
            forall i :: i in chunks ==> chunks[i] == plan[i]
  {
    var r := |file.chunks|;
    var chunks := file.chunks[r := chunk];
    assert chunks.Keys == file.chunks.Keys + {r};
    assert |chunks| == |chunks.Keys| == |file.chunks.Keys| + 1;
  }

  lemma FullPlanIsContent(file: Incoming, plan: seq<FileChunk>, content: string)
    requires Splits(plan, content) && file.fileSize == |content|
    requires file.chunks.Keys == Indices(|plan|) && forall i :: i in file.chunks ==> file.chunks[i] == plan[i]
    ensures HasAllChunks(file.chunks, CalcAmountOfChunks(file.fileSize)) && Stored(file) == content
  {
    assert Reassemble(file.chunks, file.fileSize) == content;
  }

  // ---- stops

  lemma StopKeeps(s: System, step: Step)
    requires Invariant(s) && (step.StopSender? || step.StopReceiver?)
    ensures Invariant(Apply(s, step))
  {
    StopLives(s, step);
    StopTables(s, step);
    StopBalance(s, step);
  }

  lemma StopTables(s: System, step: Step)
    requires WireOk(s) && ChainsOk(s) && (step.StopSender? || step.StopReceiver?)
    ensures WireOk(Apply(s, step)) && ChainsOk(Apply(s, step))
  {
    hide Bytes, ChainOk;
  }

  lemma StopBalance(s: System, step: Step)
    requires Balanced(s) && (step.StopSender? || step.StopReceiver?)
    ensures Balanced(Apply(s, step))
  {
    if step.StopSender? {
      BalanceStays(s, Apply(s, step));
    }
  }

  lemma StopLives(s: System, step: Step)
    requires LivesOk(s) && (step.StopSender? || step.StopReceiver?)
    ensures LivesOk(Apply(s, step))
  {
    hide Bytes, Splits, OnTrack, HoldsPrefix, Flight;
    var t := Apply(s, step);
    forall x | x in t.h.live ensures LiveOk(t.st, t.h, x) {
      assert LiveOk(s.st, s.h, x);
      if x != step.id {
        LiveFrame(s, t, x);
      }
    }
  }

  lemma StepKeeps(s: System, step: Step)
    requires Invariant(s) && Enabled(s, step)
    ensures Invariant(Apply(s, step))
  {
    match step
    case Start(_, _, _, _, _) => StartKeeps(s, step);
    case WriteDone(_, _, _) => WriteDoneKeeps(s, step);
    case Deliver => DeliverKeeps(s, step);
    case StopSender(_) => StopKeeps(s, step);
    case StopReceiver(_) => StopKeeps(s, step);
  }

  lemma {:induction false} RunKeeps(s: System, steps: seq<Step>)
    requires Invariant(s) && Admissible(s, steps)
    ensures Invariant(Execute(s, steps))
    decreases |steps|
  {
    if steps != [] {
      StepKeeps(s, steps[0]);
      RunKeeps(Apply(s, steps[0]), steps[1..]);
    }
  }

  lemma InitialIsOk()
    ensures Invariant(Initial())
  {
  }

  /** The starts among the steps, with the files' contents. */
  ghost function StartsIn(steps: seq<Step>): multiset<Entry> {
    if steps == [] then multiset{}
    else (if steps[0].Start? then multiset{(steps[0].id, steps[0].content)} else multiset{}) + StartsIn(steps[1..])
  }

  /** The history is told by the steps: what was started, and who was stopped. */
  ghost predicate HistoryIs(s: System, t: System, steps: seq<Step>) {
    && t.h.started == s.h.started + StartsIn(steps)
    && (forall id :: id in t.h.halted ==> id in s.h.halted || StopSender(id) in steps)
    && (forall e: Entry :: t.h.stopped[e] > s.h.stopped[e] ==> StopReceiver(e.0) in steps)
  }

  lemma StepEntries(s: System, step: Step)
    requires Enabled(s, step)
    ensures var h := Apply(s, step).h;
            h.started == s.h.started + (if step.Start? then multiset{(step.id, step.content)} else multiset{}) &&
            (forall id :: id in h.halted ==> id in s.h.halted || StopSender(id) == step) &&
            (forall e: Entry :: h.stopped[e] > s.h.stopped[e] ==> StopReceiver(e.0) == step)
  {
    hide ApplyState, Receive, ChunkSent, ReadFrame;
  }

  lemma StepHistory(s: System, step: Step)
    requires Enabled(s, step)
    ensures HistoryIs(s, Apply(s, step), [step])
  {
    StepEntries(s, step);
    hide Apply, Enabled;
    assert StartsIn([step]) == if step.Start? then multiset{(step.id, step.content)} else multiset{} by {
      assert [step][1..] == [];
    }
    hide StartsIn;
  }

  lemma HistoryThen(s: System, m: System, t: System, steps: seq<Step>)
    requires steps != [] && HistoryIs(s, m, [steps[0]]) && HistoryIs(m, t, steps[1..])
    ensures HistoryIs(s, t, steps)
  {
    assert [steps[0]][1..] == [];
    assert StartsIn(steps) == StartsIn([steps[0]]) + StartsIn(steps[1..]);
    hide StartsIn;
    assert forall step :: step in steps <==> step in [steps[0]] || step in steps[1..];
  }

  lemma {:induction false} RunHistory(s: System, steps: seq<Step>)
    requires Admissible(s, steps)
    ensures HistoryIs(s, Execute(s, steps), steps)
    decreases |steps|
  {
    if steps != [] {
      StepHistory(s, steps[0]);
      hide Apply, Enabled, HistoryIs;
      RunHistory(Apply(s, steps[0]), steps[1..]);
      HistoryThen(s, Apply(s, steps[0]), Execute(s, steps), steps);
    } else {
      hide Apply, Enabled;
    }
  }

  /** In every run: what has been started has been saved, byte for byte and as often as it was
      started, except for what the receiver gave up and what is still under way. What has been
      started is what the steps say. */
  lemma EveryRunSavesOriginals(steps: seq<Step>)
    requires Admissible(Initial(), steps)
    ensures Balanced(Execute(Initial(), steps)) && Execute(Initial(), steps).h.started == StartsIn(steps)
  {
    InitialIsOk();
    RunKeeps(Initial(), steps);
    RunHistory(Initial(), steps);
  }

  /** Once every chain has ended and the wire is drained, of a file that nobody has stopped exactly
      the contents have been saved with which the steps have started it, each as often. */
  lemma UnstoppedIsSaved(steps: seq<Step>, id: FileId, content: string)
    requires Admissible(Initial(), steps)
    requires var t := Execute(Initial(), steps); t.st.chains == map[] && t.st.wire == ""
    requires StopSender(id) !in steps && StopReceiver(id) !in steps
    ensures Execute(Initial(), steps).st.saved[(id, content)] == StartsIn(steps)[(id, content)]
  {
    QuietRunHasSavedAll(steps);
    RunHistory(Initial(), steps);
    hide Admissible, Execute, StartsIn;
    assert Initial().h.started + StartsIn(steps) == StartsIn(steps);
  }

  /** Once every chain has ended and the wire is drained, only files whose sender was stopped are
      still awaited; every start of any other file was saved once or given up by the receiver. */
  lemma QuietRunHasSavedAll(steps: seq<Step>)
    requires Admissible(Initial(), steps)
    requires var t := Execute(Initial(), steps); t.st.chains == map[] && t.st.wire == ""
    ensures var t := Execute(Initial(), steps);
            t.h.live.Keys <= t.h.halted &&
            forall id: FileId, content: string :: id !in t.h.halted ==>
              t.h.started[(id, content)] == t.st.saved[(id, content)] + t.h.stopped[(id, content)]
  {
    InitialIsOk();
    RunKeeps(Initial(), steps);
    var t := Execute(Initial(), steps);
    QuietLives(t);
    hide Execute, LiveOk;
    assert Balanced(t);
    assert forall id: FileId, content: string :: id !in t.h.halted ==> Pending(t.h.live, id, content) == 0;
  }

  lemma QuietLives(t: System)
    requires Invariant(t) && t.st.chains == map[] && t.st.wire == ""
    ensures t.h.live.Keys <= t.h.halted
  {
    hide Splits, OnTrack, HoldsPrefix;
    EmptyWire(t.h.inFlight);
    forall id | id in t.h.live ensures id in t.h.halted {
      assert LiveOk(t.st, t.h, id);
      assert Flight([], id) == [];
      HoldsPrefixIsShort(t.st.files[id], t.h.plans[id]);
    }
  }

  lemma HoldsPrefixIsShort(file: Incoming, plan: seq<FileChunk>)
    requires HoldsPrefix(file, plan)
    ensures |file.chunks| < |plan|
  {
  }

  lemma EmptyWire(messages: seq<Message>)
    ensures Bytes(messages) == "" ==> messages == []
  {
  }

  lemma StepStaysStopped(s: System, step: Step, id: FileId)
    requires Invariant(s) && Enabled(s, step) && id !in s.st.progress && !(step.Start? && step.id == id)
    ensures id !in Apply(s, step).st.progress
    ensures step.WriteDone? && step.id == id ==> Apply(s, step).st == s.st.(chains := s.st.chains - {id})
  {
    assert ChainsOk(s);
    assert s.st.wire + "" == s.st.wire;
    hide ReadFrame, DecodeChunk, Receive, PlanOf, NewChain, ChunkFrame, WireOk, LivesOk, Balanced, LiveOk;
  }

  lemma {:induction false} StaysStopped(s: System, steps: seq<Step>, id: FileId)
    requires Invariant(s) && Admissible(s, steps) && id !in s.st.progress
    requires forall i :: 0 <= i < |steps| ==> !(steps[i].Start? && steps[i].id == id)
    ensures Invariant(Execute(s, steps)) && id !in Execute(s, steps).st.progress
    decreases |steps|
  {
    if steps != [] {
      StepKeeps(s, steps[0]);
      StepStaysStopped(s, steps[0], id);
      hide Invariant, Apply, Enabled;
      StaysStopped(Apply(s, steps[0]), steps[1..], id);
    }
  }

  /** From a stop of the sender on, whatever happens short of a new start of the file: it stays off the
      table, and whenever a write of it completes, its chain ends without a further write. */
  lemma StoppedChainIsSilent(s: System, id: FileId, steps: seq<Step>, version: Uint32, padding: char)
    requires Invariant(s) && Admissible(Apply(s, StopSender(id)), steps)
    requires forall i :: 0 <= i < |steps| ==> !(steps[i].Start? && steps[i].id == id)
    ensures var t := Execute(Apply(s, StopSender(id)), steps);
            id !in t.st.progress &&
            (id in t.st.chains ==> Apply(t, WriteDone(id, version, padding)).st == t.st.(chains := t.st.chains - {id}))
  {
    StepKeeps(s, StopSender(id));
    StaysStopped(Apply(s, StopSender(id)), steps, id);
    var t := Execute(Apply(s, StopSender(id)), steps);
    hide Execute, Admissible, Invariant;
    if id in t.st.chains {
      StepStaysStopped(t, WriteDone(id, version, padding), id);
    }
    hide Apply;
  }
}

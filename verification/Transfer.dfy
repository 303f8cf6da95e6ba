/** What one received chunk and one completed write do to the transfer tables, as functions of
    values, and the laws of a single transfer. */
module Transfer {
  import Lists
  import opened Options
  import opened Parser
  import opened FileChunks

  /** A file being collected: `memory_file` on the receiving side. */
  datatype Incoming = Incoming(fileSize: nat, chunks: map<nat, FileChunk>)

  /** How the receiver disposes of a chunk. */
  datatype Outcome = FileUnknown | IndexOutOfRange | Stored | Completed(file: Incoming)

  // ------------------------------------------------------------ the receiver

  /** The chunk branch shared by both `handle_packet`s. */
  function Receive(files: map<FileId, Incoming>, id: FileId, chunk: FileChunk): (map<FileId, Incoming>, Outcome) {
    if id !in files then (files, FileUnknown)
    else
      var file := files[id];
      if chunk.index < CalcAmountOfChunks(file.fileSize) then
        var file' := file.(chunks := file.chunks[chunk.index := chunk]);
        if |file'.chunks| == CalcAmountOfChunks(file.fileSize)
        then (files - {id}, Completed(file'))
        else (files[id := file'], Stored)
      else (files, IndexOutOfRange)
  }

  /** Chunks kept so far have indices in range and stand under their own index. */
  ghost predicate ValidIncoming(file: Incoming) {
    && |file.chunks| <= CalcAmountOfChunks(file.fileSize) <= MAX_FILE_SIZE
    && file.fileSize <= MAX_FILE_SIZE
    && file.chunks.Keys <= Indices(CalcAmountOfChunks(file.fileSize))
    && forall i :: i in file.chunks ==> file.chunks[i].index == i
  }

  /** The count test of the receiver is the test for a full set of indices. */
  lemma StoreKeepsValid(file: Incoming, chunk: FileChunk)
    requires ValidIncoming(file) && chunk.index < CalcAmountOfChunks(file.fileSize)
    ensures var file' := file.(chunks := file.chunks[chunk.index := chunk]);
            ValidIncoming(file') &&
            (|file'.chunks| == CalcAmountOfChunks(file.fileSize) ==>
               HasAllChunks(file'.chunks, CalcAmountOfChunks(file.fileSize)))
  {
    var n := CalcAmountOfChunks(file.fileSize);
    var chunks := file.chunks[chunk.index := chunk];
    assert chunks.Keys == file.chunks.Keys + {chunk.index};
    assert |chunks| == |chunks.Keys|;
    Lists.SubsetSize(chunks.Keys, Indices(n));
    if |chunks| == n {
      Lists.SubsetSize(chunks.Keys, Indices(n));
    }
  }

  /** So a completed file can be saved, and a kept file stays valid. */
  lemma ReceiveKeepsValid(files: map<FileId, Incoming>, id: FileId, chunk: FileChunk)
    requires forall x :: x in files ==> ValidIncoming(files[x])
    ensures var (files', outcome) := Receive(files, id, chunk);
            (forall x :: x in files' ==> ValidIncoming(files'[x])) &&
            (outcome.Completed? ==>
              outcome.file.fileSize > 0 &&
              HasAllChunks(outcome.file.chunks, CalcAmountOfChunks(outcome.file.fileSize)))
  {
    if id in files && chunk.index < CalcAmountOfChunks(files[id].fileSize) {
      StoreKeepsValid(files[id], chunk);
    }
  }

  /** When a chunk is disposed of how, and what it leaves in the table. */
  lemma ReceiveAnswers(files: map<FileId, Incoming>, id: FileId, chunk: FileChunk)
    requires id in files ==> ValidIncoming(files[id])
    ensures var (files', outcome) := Receive(files, id, chunk);
            (outcome.FileUnknown? <==> id !in files) &&
            (outcome.IndexOutOfRange?
             <==> id in files && chunk.index * FILE_CHUNK_SIZE >= files[id].fileSize) &&
            (outcome.Completed?
             <==> id in files && chunk.index * FILE_CHUNK_SIZE < files[id].fileSize &&
                  forall i: nat ::
                    i * FILE_CHUNK_SIZE < files[id].fileSize && i != chunk.index ==> i in files[id].chunks) &&
            (outcome.Completed? ==>
               files' == files - {id} &&
               outcome.file == Incoming(files[id].fileSize, files[id].chunks[chunk.index := chunk])) &&
            (outcome.Stored? ==>
               files' == files[id := Incoming(files[id].fileSize, files[id].chunks[chunk.index := chunk])]) &&
            (outcome.FileUnknown? || outcome.IndexOutOfRange? ==> files' == files)
  {
    if id in files {
      BelowAmount(files[id].fileSize, chunk.index);
      if chunk.index < CalcAmountOfChunks(files[id].fileSize) {
        LastMissing(files[id], chunk);
      }
      hide CalcAmountOfChunks, ValidIncoming;
    }
  }

  /** A chunk fills the count exactly when every other index is held already. */
  lemma LastMissing(file: Incoming, chunk: FileChunk)
    requires ValidIncoming(file) && chunk.index < CalcAmountOfChunks(file.fileSize)
    ensures |file.chunks[chunk.index := chunk]| == CalcAmountOfChunks(file.fileSize)
            <==> forall i: nat :: i * FILE_CHUNK_SIZE < file.fileSize && i != chunk.index ==> i in file.chunks
  {
    var n, chunks := CalcAmountOfChunks(file.fileSize), file.chunks[chunk.index := chunk];
    assert chunks.Keys == file.chunks.Keys + {chunk.index} <= Indices(n);
    Lists.SubsetSize(chunks.Keys, Indices(n));
    assert |chunks| == |chunks.Keys|;
    assert |chunks| == n <==> chunks.Keys == Indices(n);
    hide CalcAmountOfChunks;
    forall i: nat ensures i in Indices(n) <==> i * FILE_CHUNK_SIZE < file.fileSize {
      BelowAmount(file.fileSize, i);
    }
    if forall i: nat :: i * FILE_CHUNK_SIZE < file.fileSize && i != chunk.index ==> i in file.chunks {
      forall i | i in Indices(n) ensures i in chunks.Keys {
        assert i * FILE_CHUNK_SIZE < file.fileSize;
      }
    }
    if chunks.Keys == Indices(n) {
      forall i: nat | i * FILE_CHUNK_SIZE < file.fileSize && i != chunk.index ensures i in file.chunks {
        assert i in Indices(n);
      }
    }
  }

  /** An index is below the number of chunks exactly when its chunk begins within the file. */
  lemma BelowAmount(fileSize: nat, i: nat)
    ensures i < CalcAmountOfChunks(fileSize) <==> i * FILE_CHUNK_SIZE < fileSize
  {
  }

  /** Bytes reported after the write of chunk `current` has completed. */
  function UploadReport(fileSize: nat, current: nat): nat {
    var sent := (current + 1) * FILE_CHUNK_SIZE;
    if sent < fileSize then sent else fileSize
  }

  /** Bytes reported once `count` chunks of a file are held. */
  function DownloadReport(fileSize: nat, count: nat): nat {
    if count == CalcAmountOfChunks(fileSize) then fileSize else count * FILE_CHUNK_SIZE
  }

  // --------------------------------------------------- order-insensitivity

  /** One file's collector: the file while it is awaited, and the contents saved so far. */
  datatype Collector = Collector(pending: Option<Incoming>, saved: seq<Incoming>)

  /** The receiver on a whole sequence of chunks for one file. */
  ghost function Collect(id: FileId, fileSize: nat, packets: seq<FileChunk>): Collector {
    if packets == [] then Collector(Some(Incoming(fileSize, map[])), [])
    else
      var before := Collect(id, fileSize, packets[..|packets| - 1]);
      var files := if before.pending.Some? then map[id := before.pending.value] else map[];
      var (files', outcome) := Receive(files, id, packets[|packets| - 1]);
      Collector(if id in files' then Some(files'[id]) else None,
                if outcome.Completed? then before.saved + [outcome.file] else before.saved)
  }

  ghost predicate Arrived(packets: seq<FileChunk>, i: nat) {
    exists k :: 0 <= k < |packets| && packets[k].index == i
  }

  /** All indices below `n` have arrived. */
  ghost predicate Covered(packets: seq<FileChunk>, n: nat) {
    forall i: nat :: i < n ==> Arrived(packets, i)
  }

  /** The last chunk received under index `i`. */
  ghost function Last(packets: seq<FileChunk>, i: nat): FileChunk
    requires Arrived(packets, i)
  {
    var last := packets[|packets| - 1];
    if last.index == i then last
    else
      assert Arrived(packets[..|packets| - 1], i) by {
        var k :| 0 <= k < |packets| && packets[k].index == i;
        assert packets[..|packets| - 1][k] == packets[k];
      }
      Last(packets[..|packets| - 1], i)
  }

  /** The file holds exactly the last chunk of every in-range index that has arrived. */
  ghost predicate Holds(file: Incoming, fileSize: nat, packets: seq<FileChunk>) {
    && file.fileSize == fileSize
    && forall i: nat {:trigger Arrived(packets, i)} {:trigger i in file.chunks} ::
         (i in file.chunks <==> i < CalcAmountOfChunks(fileSize) && Arrived(packets, i)) &&
         (i in file.chunks ==> file.chunks[i] == Last(packets, i))
  }

  /** Length of the shortest prefix in which all indices below `n` have arrived. */
  ghost function FirstCovered(packets: seq<FileChunk>, n: nat): (k: nat)
    requires Covered(packets, n)
    ensures k <= |packets| && Covered(packets[..k], n)
    ensures forall j :: 0 <= j < k ==> !Covered(packets[..j], n)
  {
    if packets != [] && Covered(packets[..|packets| - 1], n) then
      var shorter := packets[..|packets| - 1];
      assert forall j :: 0 <= j <= |shorter| ==> shorter[..j] == packets[..j];
      FirstCovered(shorter, n)
    else
      assert packets[..|packets|] == packets;
      (if packets != [] then CoveredMonotone(packets, |packets| - 1, n); |packets| else 0)
  }

  lemma CoveredMonotone(packets: seq<FileChunk>, k: nat, n: nat)
    requires k <= |packets|
    ensures forall j :: 0 <= j <= k ==> Covered(packets[..j], n) ==> Covered(packets[..k], n)
  {
    forall j | 0 <= j <= k ensures Covered(packets[..j], n) ==> Covered(packets[..k], n) {
      if Covered(packets[..j], n) {
        CoveredGrows(packets, j, k, n);
      }
    }
  }

  lemma CoveredGrows(packets: seq<FileChunk>, j: nat, k: nat, n: nat)
    requires j <= k <= |packets| && Covered(packets[..j], n)
    ensures Covered(packets[..k], n)
  {
    forall i: nat | i < n ensures Arrived(packets[..k], i) {
      assert Arrived(packets[..j], i);
      var m :| 0 <= m < j && packets[..j][m].index == i;
      assert packets[..k][m].index == i;
    }
  }

  lemma ArrivedSnoc(packets: seq<FileChunk>, i: nat)
    requires packets != []
    ensures var last := packets[|packets| - 1]; var before := packets[..|packets| - 1];
            (Arrived(packets, i) <==> Arrived(before, i) || last.index == i) &&
            (Arrived(packets, i) ==> Last(packets, i) == if last.index == i then last else Last(before, i))
  {
    var before := packets[..|packets| - 1];
    if Arrived(before, i) {
      var k :| 0 <= k < |before| && before[k].index == i;
      assert packets[k].index == i;
    }
    if packets[|packets| - 1].index == i {
      assert Arrived(packets, i);
    }
  }

  lemma StoreHolds(file: Incoming, fileSize: nat, packets: seq<FileChunk>)
    requires packets != [] && Holds(file, fileSize, packets[..|packets| - 1])
    ensures var chunk := packets[|packets| - 1];
            Holds(if chunk.index < CalcAmountOfChunks(fileSize)
                  then file.(chunks := file.chunks[chunk.index := chunk]) else file,
                  fileSize, packets)
  {
    forall i: nat ensures
      var last := packets[|packets| - 1]; var before := packets[..|packets| - 1];
      (Arrived(packets, i) <==> Arrived(before, i) || last.index == i) &&
      (Arrived(packets, i) ==> Last(packets, i) == if last.index == i then last else Last(before, i))
    {
      ArrivedSnoc(packets, i);
    }
  }

  /** The receiver's count test decides coverage. */
  lemma CountIsCoverage(file: Incoming, fileSize: nat, packets: seq<FileChunk>)
    requires Holds(file, fileSize, packets)
    ensures |file.chunks| == CalcAmountOfChunks(fileSize) <==> Covered(packets, CalcAmountOfChunks(fileSize))
  {
    var n := CalcAmountOfChunks(fileSize);
    assert |file.chunks| == |file.chunks.Keys|;
    assert file.chunks.Keys <= Indices(n);
    if |file.chunks| == n {
      Lists.SubsetSize(file.chunks.Keys, Indices(n));
      assert forall i: nat :: i < n ==> i in file.chunks;
    }
    if Covered(packets, n) {
      assert forall i: nat :: i in Indices(n) ==> Arrived(packets, i);
      assert file.chunks.Keys == Indices(n);
    }
  }

  /** For any sequence of chunks, with reorderings, repeats and out-of-range indices: the file is
      saved once, at the first moment all its indices have arrived, with the last data received
      until then under each index; before that moment it stays pending with the same content. */
  lemma {:induction false} CollectIsOrderInsensitive(id: FileId, fileSize: nat, packets: seq<FileChunk>)
    requires fileSize > 0
    ensures var n := CalcAmountOfChunks(fileSize); var c := Collect(id, fileSize, packets);
            if Covered(packets, n)
            then c.pending == None && |c.saved| == 1 &&
                 Holds(c.saved[0], fileSize, packets[..FirstCovered(packets, n)])
            else c.pending.Some? && c.saved == [] && Holds(c.pending.value, fileSize, packets)
  {
    var n := CalcAmountOfChunks(fileSize);
    if packets == [] {
      assert !Arrived(packets, 0);
    } else {
      var before := packets[..|packets| - 1];
      CollectIsOrderInsensitive(id, fileSize, before);
      if Covered(before, n) {
        CoveredGrows(packets, |before|, |packets|, n);
        assert packets[..|packets|] == packets;
        assert before[..FirstCovered(before, n)] == packets[..FirstCovered(before, n)];
      } else {
        var file := Collect(id, fileSize, before).pending.value;
        StoreHolds(file, fileSize, packets);
        CollectStep(id, fileSize, packets, file);
        if Covered(packets, n) {
          assert packets[..FirstCovered(packets, n)] == packets;
        }
      }
    }
  }

  lemma CollectStep(id: FileId, fileSize: nat, packets: seq<FileChunk>, file: Incoming)
    requires packets != [] && fileSize > 0
    requires Collect(id, fileSize, packets[..|packets| - 1]) == Collector(Some(file), [])
    requires Holds(file, fileSize, packets[..|packets| - 1])
    requires !Covered(packets[..|packets| - 1], CalcAmountOfChunks(fileSize))
    ensures var n := CalcAmountOfChunks(fileSize); var chunk := packets[|packets| - 1];
            var file' := if chunk.index < n then file.(chunks := file.chunks[chunk.index := chunk]) else file;
            Collect(id, fileSize, packets) ==
              if Covered(packets, n) then Collector(None, [file']) else Collector(Some(file'), [])
  {
    var n := CalcAmountOfChunks(fileSize);
    var chunk := packets[|packets| - 1];
    StoreHolds(file, fileSize, packets);
    if chunk.index < n {
      CountIsCoverage(file.(chunks := file.chunks[chunk.index := chunk]), fileSize, packets);
    } else {
      CountIsCoverage(file, fileSize, packets[..|packets| - 1]);
      CountIsCoverage(file, fileSize, packets);
    }
  }

  /** The server accepts a transfer of size zero, and such a file is the one kind that no sequence
      of chunks ever completes: some sequence completes a file exactly when it has a chunk. */
  lemma CompletableIffNonEmpty(id: FileId, fileSize: nat)
    ensures fileSize > 0 <==> exists packets :: Collect(id, fileSize, packets).saved != []
  {
    if fileSize > 0 {
      var n := CalcAmountOfChunks(fileSize);
      var data: Buffer := seq(FILE_CHUNK_SIZE, _ => ' ');
      var packets := seq(n, (i: nat) => FileChunk(data, i));
      forall i: nat | i < n ensures Arrived(packets, i) {
        assert packets[i].index == i;
      }
      CollectIsOrderInsensitive(id, fileSize, packets);
      assert Collect(id, fileSize, packets).saved != [];
    } else {
      forall packets ensures Collect(id, fileSize, packets).saved == [] {
        EmptyNeverSaved(id, packets);
      }
    }
  }

  lemma {:induction false} EmptyNeverSaved(id: FileId, packets: seq<FileChunk>)
    ensures Collect(id, 0, packets) == Collector(Some(Incoming(0, map[])), [])
  {
    if packets != [] {
      EmptyNeverSaved(id, packets[..|packets| - 1]);
    }
  }

  // -------------------------------------------------------------- the sender

  /** A chain of writes: the file and the chunks its callbacks still hold. */
  datatype Chain = Chain(id: FileId, fileSize: nat, remaining: map<nat, FileChunk>)

  /** The effect of one completed write on the progress table and on the chain, and the chunk
      written next: common to both `handle_..._chunk_sent`. */
  function ChunkSent(progress: map<FileId, nat>, chain: Chain): (map<FileId, nat>, Chain, Option<FileChunk>) {
    if chain.id in progress then
      var current := progress[chain.id];
      var chain' := chain.(remaining := chain.remaining - {current});
      if current + 1 in chain'.remaining
      then (progress[chain.id := current + 1], chain', Some(chain'.remaining[current + 1]))
      else (progress - {chain.id}, chain', None)
    else (progress, chain, None)
  }

  /** Of the planned chunks 0..n-1 exactly those from `progress` on remain; the write in flight
      is the one at `progress`. */
  ghost predicate OnTrack(chain: Chain, plan: seq<FileChunk>, progress: nat) {
    && progress < |plan|
    && forall i: nat :: (i in chain.remaining <==> progress <= i < |plan|) &&
                   (i in chain.remaining ==> chain.remaining[i] == plan[i])
  }

  /** A completed write keeps the chain on track, hands out the next chunk of the plan, and after
      the last one takes the file off the table. */
  lemma ChunkSentKeepsTrack(progress: map<FileId, nat>, chain: Chain, plan: seq<FileChunk>)
    requires chain.id in progress && OnTrack(chain, plan, progress[chain.id])
    ensures var p := progress[chain.id];
            var (progress', chain', next) := ChunkSent(progress, chain);
            chain'.id == chain.id &&
            if p + 1 < |plan|
            then progress' == progress[chain.id := p + 1] && OnTrack(chain', plan, p + 1) && next == Some(plan[p + 1])
            else progress' == progress - {chain.id} && next == None
  {
    var p := progress[chain.id];
    var rest := chain.remaining - {p};
    assert forall i: nat :: i in rest <==> i in chain.remaining && i != p;
    assert p + 1 in rest <==> p + 1 < |plan|;
  }

  /** The chunks that a chain writes after the one in flight, if nobody stops it. */
  ghost function Emitted(progress: map<FileId, nat>, chain: Chain, plan: seq<FileChunk>): seq<FileChunk>
    requires chain.id in progress && OnTrack(chain, plan, progress[chain.id])
    decreases |plan| - progress[chain.id]
  {
    ChunkSentKeepsTrack(progress, chain, plan);
    var (progress', chain', next) := ChunkSent(progress, chain);
    match next
    case None => []
    case Some(chunk) => [chunk] + Emitted(progress', chain', plan)
  }

  /** An undisturbed chain writes every later chunk once, in ascending order. */
  lemma {:induction false} ChainEmitsPlan(progress: map<FileId, nat>, chain: Chain, plan: seq<FileChunk>)
    requires chain.id in progress && OnTrack(chain, plan, progress[chain.id])
    ensures Emitted(progress, chain, plan) == plan[progress[chain.id] + 1..]
    decreases |plan| - progress[chain.id]
  {
    ChunkSentKeepsTrack(progress, chain, plan);
    var (progress', chain', next) := ChunkSent(progress, chain);
    if next.Some? {
      ChainEmitsPlan(progress', chain', plan);
    }
  }
}

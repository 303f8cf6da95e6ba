/** The two ends of an upload as the objects they are, with the bytes of the connection between them:
    every step of `TransferSystem` is what the methods of `ClientFiles` and `FileSession` do. */
module TransferObjects {
  import opened Options
  import opened Parser
  import opened FileChunks
  import opened Transfer
  import opened FileSessions
  import TS = TransferSystem

  /** What the server has stored, as often as it has. */
  ghost function Entries(saved: seq<Saved>): multiset<TS.Entry>
    requires Named(saved)
  {
    if saved == [] then multiset{}
    else
      var last := saved[|saved| - 1];
      Entries(saved[..|saved| - 1]) + multiset{(last.name, last.content)}
  }

  ghost predicate Named(saved: seq<Saved>) { forall i :: 0 <= i < |saved| ==> |saved[i].name| == FILE_ID_SIZE }

  lemma EntriesSnoc(saved: seq<Saved>, id: FileId, content: string)
    requires Named(saved)
    ensures Named(saved + [Saved(id, content)])
    ensures Entries(saved + [Saved(id, content)]) == Entries(saved) + multiset{(id, content)}
  {
    assert (saved + [Saved(id, content)])[..|saved|] == saved;
  }

  class UploadLink {
    const client: ClientFiles
    const server: FileSession
    var files: map<FileId, MemoryFile>   // what the outstanding completion callbacks hold
    var read: nat                        // how many of the client's bytes the server has read

    ghost predicate Valid()
      reads this, client, server
    {
      && client.Valid() && server.Valid() && server.authenticated
      && read <= |client.written| && Named(server.saved)
      && forall id: FileId :: id in files ==> files[id].id == id
    }

    ghost function Chains(): map<FileId, Chain>
      reads this, files.Values
    {
      map id: FileId | id in files :: files[id].AsChain()
    }

    ghost function State(): TS.State
      requires Valid()
      reads this, client, server, files.Values
    {
      TS.State(client.uploadsProgress, Chains(), client.written[read..], server.uploadFiles, Entries(server.saved))
    }

    constructor (client: ClientFiles, server: FileSession)
      requires client.Valid() && server.Valid() && server.authenticated && Named(server.saved)
      ensures Valid() && this.client == client && this.server == server && files == map[] && read == |client.written|
    {
      this.client, this.server, files, read := client, server, map[], |client.written|;
    }

    /** A write completes: the callback of the file's chain runs. */
    method WriteDone(id: FileId, version: Uint32, padding: char)
      requires Valid() && id in files
      modifies this`files, client`uploadsProgress, client`written, client`events, files.Values
      ensures Valid() && State() == TS.ApplyState(old(State()), TS.WriteDone(id, version, padding))
    {
      var file := files[id];
      ghost var before, written := Chains(), client.written;
      assert before[id] == file.AsChain();
      var next := client.HandleUploadChunkSent(file, version, padding);
      assert client.written[read..] == written[read..] + FrameOf(id, next, version, padding);
      assert forall x: FileId :: x in files && x != id ==> files[x].AsChain() == before[x];
      if next == None {
        files := files - {id};
      }
      assert Chains() == if next.Some? then before[id := file.AsChain()] else before - {id};
      hide ChunkSent, FrameOf, Entries, ValidTable;
    }

    /** The server reads the oldest frame and handles it. */
    method Deliver() returns (reply: Reply)
      requires Valid() && ReadFrame(client.written[read..]).Got?
      requires DecodeChunk(ReadFrame(client.written[read..]).body).Some?
      modifies this`read, server
      ensures Valid() && State() == TS.ApplyState(old(State()), TS.Deliver)
    {
      ghost var before := State();
      var frame := ReadFrame(client.written[read..]);
      GotIs(client.written[read..]);
      NotShutdown(frame.body);
      DeliverIs(before);
      hide *;
      read := |client.written| - |frame.rest|;
      reply := Handle(frame.body);
    }

    /** The server handles a chunk. */
    method Handle(body: string) returns (reply: Reply)
      requires Valid() && DecodeChunk(body).Some? && !IsShutdown(body)
      modifies server
      ensures Valid()
      ensures var (id, chunk) := DecodeChunk(body).value;
              var (files, outcome) := Receive(old(State()).files, id, chunk);
              State() == old(State()).(
                files := files,
                saved := if outcome.Completed? then old(State()).saved + multiset{(id, TS.Stored(outcome.file))}
                         else old(State()).saved)
    {
      ghost var before, saved, chains := State(), server.saved, Chains();
      ghost var (id, chunk) := DecodeChunk(body).value;
      ghost var outcome := Receive(before.files, id, chunk).1;
      hide Receive, DecodeChunk, Entries, ValidIncoming, TS.Stored, IsShutdown, HasAllChunks;
      reply := server.HandlePacket(body, NotAuth);
      SavedIs(saved, outcome, id);
      assert chains == Chains();
      hide SavedBy;
    }

    /** The server admits an upload. */
    method Admit(id: FileId, fileSize: nat)
      requires Valid() && fileSize <= MAX_FILE_SIZE && id !in server.uploadFiles
      modifies server`uploadFiles
      ensures Valid() && State() == old(State()).(files := old(State()).files[id := Incoming(fileSize, map[])])
    {
      ghost var chains := Chains();
      hide ValidIncoming, Entries;
      var _ := server.AddUploadFile(id, fileSize);
      assert chains == Chains();
    }

    /** The client cuts the file and writes the first chunk. */
    method Send(id: FileId, content: string, garbage: nat -> Buffer, version: Uint32, padding: char)
      returns (ghost chain: Chain)
      requires Valid() && 0 < |content| && id !in files
      modifies this`files, client`uploadsProgress, client`written
      ensures Valid() && chain.id == id && chain.fileSize == |content|
      ensures chain.remaining.Keys == Indices(CalcAmountOfChunks(|content|)) && 0 in chain.remaining
      ensures forall i :: i in chain.remaining ==> chain.remaining[i] == ChunkAt(content, garbage, i)
      ensures State() == old(State()).(
                progress := old(State()).progress[id := 0], chains := old(State()).chains[id := chain],
                wire := old(State()).wire + ChunkFrame(id, chain.remaining[0], version, padding))
    {
      hide CalcAmountOfChunks, Indices, ChunkAt, ChunkFrame, Entries, ValidIncoming, ValidTable;
      ghost var written, chains := client.written, Chains();
      var _, file := client.StartUpload(id, Some(content), None, garbage, version, padding);
      chain := file.AsChain();
      files := files[id := file];
      assert client.written[read..] == written[read..] + ChunkFrame(id, file.chunks[0], version, padding);
      assert Chains() == chains[id := chain];
    }

    /** A start: the server admits the upload, then the client begins it. */
    method Start(id: FileId, content: string, garbage: nat -> Buffer, version: Uint32, padding: char)
      requires Valid() && 0 < |content| <= MAX_FILE_SIZE
      requires id !in files && id !in client.uploadsProgress && id !in server.uploadFiles
      modifies this`files, client`uploadsProgress, client`written, server`uploadFiles
      ensures Valid() && State() == TS.ApplyState(old(State()), TS.Start(id, content, garbage, version, padding))
    {
      ghost var before := State();
      assert before.files == server.uploadFiles;
      hide *;
      Admit(id, |content|);
      ghost var chain := Send(id, content, garbage, version, padding);
      StartIs(before, id, content, garbage, version, padding, chain);
    }

    /** The client's part of a stop, once the server has confirmed. */
    method StopSender(id: FileId) returns (reply: Reply)
      requires Valid()
      modifies client`uploadsProgress, client`downloadFiles, client`downloadPaths
      ensures Valid() && State() == TS.ApplyState(old(State()), TS.StopSender(id))
    {
      ghost var before := State();
      reply := client.StopFileTransmission(id, None);
      assert client.uploadsProgress == before.progress - {id};
    }

    /** The server's part of a stop. */
    method StopReceiver(id: FileId)
      requires Valid()
      modifies server`uploadFiles, server`downloadsProgress
      ensures Valid() && State() == TS.ApplyState(old(State()), TS.StopReceiver(id))
    {
      server.RemoveFile(id);
    }
  }

  lemma DeliverIs(st: TS.State)
    requires ReadFrame(st.wire).Got? && DecodeChunk(ReadFrame(st.wire).body).Some?
    ensures var frame := ReadFrame(st.wire); var (id, chunk) := DecodeChunk(frame.body).value;
            var (files, outcome) := Receive(st.files, id, chunk);
            TS.ApplyState(st, TS.Deliver)
            == st.(wire := frame.rest, files := files,
                   saved := if outcome.Completed? then st.saved + multiset{(id, TS.Stored(outcome.file))} else st.saved)
  {
    hide ReadFrame, DecodeChunk, Receive, TS.Stored;
  }

  lemma SavedIs(saved: seq<Saved>, outcome: Outcome, id: FileId)
    requires Named(saved)
    requires outcome.Completed? ==>
               HasAllChunks(outcome.file.chunks, CalcAmountOfChunks(outcome.file.fileSize))
    ensures Named(saved + SavedBy(outcome, id))
    ensures Entries(saved + SavedBy(outcome, id))
            == if outcome.Completed?
               then Entries(saved) + multiset{(id, TS.Stored(outcome.file))} else Entries(saved)
  {
    if outcome.Completed? {
      EntriesSnoc(saved, id, Reassemble(outcome.file.chunks, outcome.file.fileSize));
    } else {
      assert saved + [] == saved;
    }
    hide Entries, Reassemble, HasAllChunks;
  }

  lemma StartIs(st: TS.State, id: FileId, content: string, garbage: nat -> Buffer, version: Uint32, padding: char,
                chain: Chain)
    requires 0 < |content| <= MAX_FILE_SIZE && chain.id == id && chain.fileSize == |content|
    requires chain.remaining.Keys == Indices(CalcAmountOfChunks(|content|)) && 0 in chain.remaining
    requires forall i :: i in chain.remaining ==> chain.remaining[i] == ChunkAt(content, garbage, i)
    ensures TS.ApplyState(st, TS.Start(id, content, garbage, version, padding))
            == st.(progress := st.progress[id := 0], chains := st.chains[id := chain],
                   wire := st.wire + ChunkFrame(id, chain.remaining[0], version, padding),
                   files := st.files[id := Incoming(|content|, map[])])
  {
    var plan := TS.PlanOf(content, garbage);
    AmountIsCover(|content|, CalcAmountOfChunks(|content|));
    assert |plan| == CalcAmountOfChunks(|content|) > 0;
    assert chain == TS.NewChain(id, content, garbage);
    hide ChunkAt, ChunkFrame, CalcAmountOfChunks;
  }

  lemma GotIs(stream: string)
    requires ReadFrame(stream).Got?
    ensures |ReadFrame(stream).rest| <= |stream| &&
      stream[|stream| - |ReadFrame(stream).rest|..] == ReadFrame(stream).rest
  {
  }

  lemma NotShutdown(buf: string)
    requires DecodeChunk(buf).Some?
    ensures !IsShutdown(buf)
  {
  }
}

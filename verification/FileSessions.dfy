/** The two ends of the file connection as objects: the server's `file_session` and the client's
    `files` module. Each method is tied to the value-level functions of `Transfer`. */
module FileSessions {
  import opened Options
  import opened Parser
  import opened FileChunks
  import opened Transfer
  import Progress

  /** `memory_file` on the sending side, shared by the callbacks of one chain of writes. On the
      receiving side nothing but the table reaches it until it is complete, so there the table
      holds `Incoming` values. */
  class MemoryFile {
    const id: FileId
    const fileSize: nat
    var chunks: map<nat, FileChunk>

    constructor (id: FileId, fileSize: nat, chunks: map<nat, FileChunk>)
      ensures this.id == id && this.fileSize == fileSize && this.chunks == chunks
    {
      this.id, this.fileSize, this.chunks := id, fileSize, chunks;
    }

    ghost function AsChain(): Chain
      reads this
    {
      Chain(id, fileSize, chunks)
    }
  }

  ghost predicate ValidTable(files: map<FileId, Incoming>) {
    forall id :: id in files ==> ValidIncoming(files[id])
  }

  /** The frame that carries one chunk; `version` and `padding` are bytes the code leaves unset. */
  function ChunkFrame(id: FileId, chunk: FileChunk, version: Uint32, padding: char): string {
    Frame(Packet(version, EncodeChunk(id, chunk, padding)))
  }

  /** What a write of `next` adds to the socket. */
  function FrameOf(id: FileId, next: Option<FileChunk>, version: Uint32, padding: char): string {
    match next
    case None => ""
    case Some(chunk) => ChunkFrame(id, chunk, version, padding)
  }

  datatype Saved = Saved(name: string, content: string)

  /** What a chunk's outcome adds to the saved files. */
  ghost function SavedBy(outcome: Outcome, name: string): seq<Saved>
    requires outcome.Completed? ==>
      HasAllChunks(outcome.file.chunks, CalcAmountOfChunks(outcome.file.fileSize))
  {
    if outcome.Completed? then [Saved(name, Reassemble(outcome.file.chunks, outcome.file.fileSize))] else []
  }

  /** A session auth packet is judged outside this model. */
  datatype AuthAttempt = NotAuth | Accepted | Refused

  datatype FileError = NotAuthenticated | FileNotFound | SessionRefused | UnknownError
                     | FileAlreadyDownloading | FileSizeExceededMax | EmptyFile | InvalidDownloadPath
  datatype Reply = NoReply | AuthenticatedReply | ErrorReply(error: FileError)

  /** Whether `get_file_chunks` throws: the file cannot be opened, or holds nothing. */
  predicate Fails(stored: Option<string>) { stored == None || stored == Some("") }

  /** What a request to download does to the table, and what it is answered. */
  function AddDownload(progress: map<FileId, nat>, id: FileId, stored: Option<string>): (map<FileId, nat>, Reply) {
    if id in progress then (progress, ErrorReply(FileAlreadyDownloading))
    else
      (progress[id := 0],
       if stored == None then ErrorReply(FileNotFound)
       else if stored == Some("") then ErrorReply(UnknownError) else NoReply)
  }

  /** The store-or-complete step of both `handle_packet`s, with the content to save. */
  method TakeChunk(files: map<FileId, Incoming>, id: FileId, chunk: FileChunk)
    returns (files': map<FileId, Incoming>, outcome: Outcome, content: string)
    requires ValidTable(files)
    ensures (files', outcome) == Receive(files, id, chunk)
    ensures ValidTable(files')
    ensures outcome.Completed? ==>
              HasAllChunks(outcome.file.chunks, CalcAmountOfChunks(outcome.file.fileSize)) &&
              content == Reassemble(outcome.file.chunks, outcome.file.fileSize)
  {
    files', outcome, content := files, FileUnknown, "";
    if id in files {
      ReceiveKeepsValid(files, id, chunk);
      var file := files[id];
      if chunk.index < CalcAmountOfChunks(file.fileSize) {
        file := file.(chunks := file.chunks[chunk.index := chunk]);
        if |file.chunks| == CalcAmountOfChunks(file.fileSize) {
          files', outcome := files - {id}, Completed(file);
          content := SavedContent(file.fileSize, file.chunks);
        } else {
          files', outcome := files[id := file], Stored;
        }
      } else {
        outcome := IndexOutOfRange;
      }
    }
  }

  lemma RemoveKeepsValid(files: map<FileId, Incoming>, id: FileId)
    requires ValidTable(files)
    ensures ValidTable(files - {id})
    ensures id !in files ==> files - {id} == files
  {
  }

  class FileSession {
    var authenticated: bool
    var closed: bool
    var uploadFiles: map<FileId, Incoming>
    var downloadsProgress: map<FileId, nat>
    var written: string       // bytes handed to the socket
    var saved: seq<Saved>     // files that save_file has stored

    ghost predicate Valid()
      reads this
    {
      ValidTable(uploadFiles)
    }

    constructor ()
      ensures Valid() && uploadFiles == map[] && downloadsProgress == map[] && !authenticated && !closed
      ensures written == "" && saved == []
    {
      authenticated, closed, written, saved := false, false, "", [];
      uploadFiles, downloadsProgress := map[], map[];
    }

    /** `init_upload_file` and `add_upload_file`. */
    method AddUploadFile(id: FileId, fileSize: nat) returns (reply: Reply)
      requires Valid()
      modifies this`uploadFiles
      ensures Valid()
      ensures reply == if fileSize > MAX_FILE_SIZE then ErrorReply(FileSizeExceededMax)
                       else if id in old(uploadFiles) then ErrorReply(UnknownError) else NoReply
      ensures uploadFiles == if reply == NoReply then old(uploadFiles)[id := Incoming(fileSize, map[])]
                           else old(uploadFiles)
    {
      if fileSize > MAX_FILE_SIZE {
        return ErrorReply(FileSizeExceededMax);
      }
      if id in uploadFiles {
        return ErrorReply(UnknownError);
      }
      uploadFiles := uploadFiles[id := Incoming(fileSize, map[])];
      reply := NoReply;
    }

    /** `handle_packet`: authentication first, then shutdown, then chunks. */
    method HandlePacket(buf: string, auth: AuthAttempt) returns (reply: Reply)
      requires Valid()
      modifies this
      ensures Valid() && downloadsProgress == old(downloadsProgress) && written == old(written)
      ensures authenticated == (old(authenticated) || auth == Accepted)
      ensures closed == (old(closed) || ((old(authenticated) || auth == NotAuth) && IsShutdown(buf)))
      ensures !old(authenticated) && auth != NotAuth ==>
                reply == if auth == Accepted then AuthenticatedReply else ErrorReply(SessionRefused)
      ensures !old(authenticated) && auth == NotAuth && !IsShutdown(buf) ==> reply == ErrorReply(NotAuthenticated)
      ensures !old(authenticated) || DecodeChunk(buf).None? ==>
                uploadFiles == old(uploadFiles) && saved == old(saved)
      ensures old(authenticated) && DecodeChunk(buf).Some? ==>
                var (id, chunk) := DecodeChunk(buf).value;
                var (files, outcome) := Receive(old(uploadFiles), id, chunk);
                uploadFiles == files &&
                reply == (if id !in old(uploadFiles) then ErrorReply(FileNotFound) else NoReply) &&
                (outcome.Completed? ==>
                   HasAllChunks(outcome.file.chunks, CalcAmountOfChunks(outcome.file.fileSize))) &&
                saved == old(saved) + SavedBy(outcome, id)
    {
      reply := NoReply;
      if !authenticated && auth != NotAuth {
        if auth == Accepted {
          authenticated := true;
          reply := AuthenticatedReply;
        } else {
          reply := ErrorReply(SessionRefused);
        }
      } else if IsShutdown(buf) {
        closed := true;
      } else if !authenticated {
        reply := ErrorReply(NotAuthenticated);
      } else if DecodeChunk(buf).Some? {
        var (id, chunk) := DecodeChunk(buf).value;
        var files, outcome, content := TakeChunk(uploadFiles, id, chunk);
        uploadFiles := files;
        match outcome {
          case FileUnknown => reply := ErrorReply(FileNotFound);
          case Completed(_) => saved := saved + [Saved(id, content)];
          case _ =>
        }
      }
    }

    /** `add_download_file`, given what `get_file_chunks` finds on disk. The progress entry is made
        before the file is opened, so it stays behind when the file is missing or empty. */
    method AddDownloadFile(id: FileId, stored: Option<string>, garbage: nat -> Buffer, version: Uint32, padding: char)
      returns (reply: Reply, file: MemoryFile?)
      modifies this`downloadsProgress, this`written
      ensures (downloadsProgress, reply) == AddDownload(old(downloadsProgress), id, stored)
      ensures reply == ErrorReply(FileAlreadyDownloading) <==> id in old(downloadsProgress)
      ensures reply == ErrorReply(FileNotFound) <==> id !in old(downloadsProgress) && stored.None?
      ensures reply == ErrorReply(UnknownError) <==> id !in old(downloadsProgress) && stored == Some("")
      ensures reply == NoReply <==> file != null
      ensures file == null ==> written == old(written)
      ensures file != null ==>
                fresh(file) && stored.Some? && file.id == id && file.fileSize == |stored.value| &&
                file.chunks.Keys == Indices(CalcAmountOfChunks(|stored.value|)) &&
                (forall i :: i in file.chunks ==> file.chunks[i] == ChunkAt(stored.value, garbage, i)) &&
                0 in file.chunks &&
                written == old(written) + ChunkFrame(id, file.chunks[0], version, padding)
    {
      file := null;
      if id in downloadsProgress {
        return ErrorReply(FileAlreadyDownloading), null;
      }
      downloadsProgress := downloadsProgress[id := 0];
      if stored.None? {
        return ErrorReply(FileNotFound), null;
      }
      if stored.value == "" {
        return ErrorReply(UnknownError), null;
      }
      var chunks := GetFileChunks(stored.value, garbage);
      AmountIsCover(|stored.value|, CalcAmountOfChunks(|stored.value|));
      file := new MemoryFile(id, |stored.value|, chunks);
      written := written + ChunkFrame(id, file.chunks[0], version, padding);
      reply := NoReply;
    }

    /** `handle_download_chunk_sent`: the completion of one write. */
    method HandleDownloadChunkSent(file: MemoryFile, version: Uint32, padding: char)
      returns (next: Option<FileChunk>)
      modifies this`downloadsProgress, this`written, file
      ensures (downloadsProgress, file.AsChain(), next) == ChunkSent(old(downloadsProgress), old(file.AsChain()))
      ensures written == old(written) + FrameOf(file.id, next, version, padding)
    {
      next := None;
      ghost var before := downloadsProgress;
      if file.id in downloadsProgress {
        var current := downloadsProgress[file.id];
        downloadsProgress := downloadsProgress[file.id := current + 1];
        file.chunks := file.chunks - {current};
        if current + 1 in file.chunks {
          next := Some(file.chunks[current + 1]);
          written := written + ChunkFrame(file.id, file.chunks[current + 1], version, padding);
        } else {
          downloadsProgress := downloadsProgress - {file.id};
          assert downloadsProgress == before - {file.id};
        }
      }
    }

    /** `remove_file`, the server's part of stopping a transmission. */
    method RemoveFile(id: FileId)
      requires Valid()
      modifies this`uploadFiles, this`downloadsProgress
      ensures Valid()
      ensures uploadFiles == old(uploadFiles) - {id} && downloadsProgress == old(downloadsProgress) - {id}
    {
      downloadsProgress := downloadsProgress - {id};
      uploadFiles := uploadFiles - {id};
    }
  }

  /** The loop over the noted reports, in the unspecified order of an unordered map: each file with a
      report is told of once, of the latest. */
  method DeliverAll(noted: map<FileId, nat>) returns (ghost order: seq<FileId>, delivered: seq<(FileId, nat)>)
    ensures Progress.IsOrderOf(order, noted) && delivered == Progress.Listing(order, noted)
    ensures forall id: FileId :: Progress.Shown(delivered, id) == if id in noted then [noted[id]] else []
  {
    hide Progress.Shown;
    order, delivered := [], [];
    var todo := noted.Keys;
    while todo != {}
      invariant todo <= noted.Keys
      invariant forall i :: 0 <= i < |order| ==> order[i] in noted
      invariant forall i, j :: 0 <= i < j < |order| ==> order[i] != order[j]
      invariant forall id: FileId :: id in order <==> id in noted && id !in todo
      invariant delivered == Progress.Listing(order, noted)
    {
      var id :| id in todo;
      Progress.ListingSnoc(order, id, noted);
      delivered := delivered + [(id, noted[id])];
      order := order + [id];
      todo := todo - {id};
    }
    forall id: FileId ensures Progress.Shown(delivered, id) == if id in noted then [noted[id]] else [] {
      Progress.ShownListing(order, noted, id);
    }
  }

  /** The server's answer to a request for a file's size. */
  datatype FileInfo = Size(fileSize: nat) | Unavailable(error: FileError)

  /** The report that a chunk gives rise to. */
  function Noted(events: map<FileId, nat>, id: FileId, files: map<FileId, Incoming>, outcome: Outcome)
    : map<FileId, nat>
  {
    match outcome
    case Completed(file) => events[id := DownloadReport(file.fileSize, |file.chunks|)]
    case Stored => if id in files then events[id := DownloadReport(files[id].fileSize, |files[id].chunks|)] else events
    case _ => events
  }

  lemma ReceiveKeys(files: map<FileId, Incoming>, id: FileId, chunk: FileChunk)
    ensures var (files', outcome) := Receive(files, id, chunk);
            (outcome.Completed? ==>
               id in files && files' == files - {id} &&
               DownloadReport(outcome.file.fileSize, |outcome.file.chunks|) == outcome.file.fileSize) &&
            (outcome.Stored? ==>
               id in files && files'.Keys == files.Keys &&
               DownloadReport(files'[id].fileSize, |files'[id].chunks|) == |files'[id].chunks| * FILE_CHUNK_SIZE) &&
            (outcome.FileUnknown? || outcome.IndexOutOfRange? ==> files' == files)
  {
    hide CalcAmountOfChunks;
  }

  // ---------------------------------------- the reports of many downloads

  /** The table of downloads after chunks of any files, in the order in which they arrive. */
  ghost function TableAfter(files: map<FileId, Incoming>, arrivals: seq<(FileId, FileChunk)>): map<FileId, Incoming> {
    if arrivals == [] then files
    else
      var last := arrivals[|arrivals| - 1];
      Receive(TableAfter(files, arrivals[..|arrivals| - 1]), last.0, last.1).0
  }

  /** What is noted of one file on the way. */
  ghost function NotesOf(files: map<FileId, Incoming>, arrivals: seq<(FileId, FileChunk)>, id: FileId): seq<nat> {
    if arrivals == [] then []
    else
      var init, last := arrivals[..|arrivals| - 1], arrivals[|arrivals| - 1];
      var (after, outcome) := Receive(TableAfter(files, init), last.0, last.1);
      var noted := Noted(map[], last.0, after, outcome);
      NotesOf(files, init, id) + if id in noted then [noted[id]] else []
  }

  ghost function ChunksOf(arrivals: seq<(FileId, FileChunk)>, id: FileId): seq<FileChunk> {
    if arrivals == [] then []
    else
      var last := arrivals[|arrivals| - 1];
      ChunksOf(arrivals[..|arrivals| - 1], id) + if last.0 == id then [last.1] else []
  }

  ghost predicate Awaits(files: map<FileId, Incoming>, id: FileId, pending: Option<Incoming>) {
    pending == if id in files then Some(files[id]) else None
  }

  /** One more chunk, of the file or of another. */
  lemma NoteStep(files: map<FileId, Incoming>, id: FileId, fileSize: nat, packets: seq<FileChunk>,
                 arrival: (FileId, FileChunk))
    requires Awaits(files, id, Collect(id, fileSize, packets).pending)
    requires Collect(id, fileSize, packets).pending.Some? ==>
               Collect(id, fileSize, packets).pending.value.fileSize == fileSize
    ensures var (after, outcome) := Receive(files, arrival.0, arrival.1);
            var noted := Noted(map[], arrival.0, after, outcome);
            var more := packets + if arrival.0 == id then [arrival.1] else [];
            Awaits(after, id, Collect(id, fileSize, more).pending) &&
            (Collect(id, fileSize, more).pending.Some? ==>
               Collect(id, fileSize, more).pending.value.fileSize == fileSize) &&
            Progress.DownloadReports(id, fileSize, more)
            == Progress.DownloadReports(id, fileSize, packets) + if id in noted then [noted[id]] else []
  {
    if arrival.0 == id {
      assert (packets + [arrival.1])[..|packets|] == packets;
      Progress.ReportsSnoc(id, fileSize, packets + [arrival.1]);
    } else {
      assert packets + [] == packets;
    }
    hide Progress.DownloadReports, CalcAmountOfChunks;
  }

  /** However the chunks of many downloads are mixed, the reports that `HandleChunk` notes of one of
      them are those of collecting its own chunks, and the table awaits it as long as they do not
      complete it. */
  lemma {:induction false} NotesAreDownloadReports(files: map<FileId, Incoming>, arrivals: seq<(FileId, FileChunk)>,
                                                   id: FileId, fileSize: nat)
    requires id in files && files[id] == Incoming(fileSize, map[])
    ensures var packets := ChunksOf(arrivals, id);
            Awaits(TableAfter(files, arrivals), id, Collect(id, fileSize, packets).pending) &&
            (Collect(id, fileSize, packets).pending.Some? ==>
               Collect(id, fileSize, packets).pending.value.fileSize == fileSize) &&
            NotesOf(files, arrivals, id) == Progress.DownloadReports(id, fileSize, packets)
  {
    if arrivals != [] {
      var init, last := arrivals[..|arrivals| - 1], arrivals[|arrivals| - 1];
      NotesAreDownloadReports(files, init, id, fileSize);
      NoteStep(TableAfter(files, init), id, fileSize, ChunksOf(init, id), last);
      hide Noted, Receive, Collect, Progress.DownloadReports;
    }
  }

  /** From the packets of many downloads to the client's list: once nothing is noted of a download any
      more, it is still listed exactly as long as the table awaits chunks of it. */
  lemma ListedWhileAwaited(files: map<FileId, Incoming>, arrivals: seq<(FileId, FileChunk)>, id: FileId,
                           trace: seq<Progress.Event>, st: Progress.FilesState)
    requires Progress.Possible(trace) && id !in Progress.After(trace).noted
    requires id in st.sizes && st.sizes[id] > 0 && id in files && files[id] == Incoming(st.sizes[id], map[])
    requires Progress.Reports(trace, id) == NotesOf(files, arrivals, id)
    ensures id in Progress.Replay(st, Progress.After(trace).delivered).downloading
            <==> id in st.downloading && id in TableAfter(files, arrivals)
  {
    var packets := ChunksOf(arrivals, id);
    NotesAreDownloadReports(files, arrivals, id, st.sizes[id]);
    CollectIsOrderInsensitive(id, st.sizes[id], packets);
    hide Progress.Possible, Progress.After, Progress.Reports, Progress.Replay, Progress.DownloadReports, NotesOf,
      TableAfter, ChunksOf, Collect, Covered, Holds;
    Progress.DownloadListedUntilSaved(trace, id, st, packets);
  }

  class ClientFiles {
    var uploadsProgress: map<FileId, nat>
    var downloadFiles: map<FileId, Incoming>
    var downloadPaths: map<FileId, string>
    var events: map<FileId, nat>   // latest unreported progress of each file
    var written: string
    var saved: seq<Saved>

    ghost predicate Valid()
      reads this
    {
      ValidTable(downloadFiles) && downloadPaths.Keys == downloadFiles.Keys
    }

    constructor ()
      ensures Valid() && downloadFiles == map[] && uploadsProgress == map[] && events == map[]
      ensures written == "" && saved == []
    {
      uploadsProgress, downloadFiles, downloadPaths, events := map[], map[], map[], map[];
      written, saved := "", [];
    }

    /** `start_upload` and the first write of `upload`: `content` is none for a file that cannot be
        opened, `refusal` the server's answer to the request, if it is an error. */
    method StartUpload(id: FileId, content: Option<string>, refusal: Option<FileError>, garbage: nat -> Buffer,
                       version: Uint32, padding: char)
      returns (reply: Reply, file: MemoryFile?)
      modifies this`uploadsProgress, this`written
      ensures reply == if content == None then ErrorReply(FileNotFound)
                       else if content == Some("") then ErrorReply(EmptyFile)
                       else if refusal.Some? then ErrorReply(refusal.value) else NoReply
      ensures reply != NoReply ==> file == null && uploadsProgress == old(uploadsProgress) && written == old(written)
      ensures reply == NoReply ==>
                file != null && fresh(file) && file.id == id && file.fileSize == |content.value| &&
                uploadsProgress == old(uploadsProgress)[id := 0] &&
                file.chunks.Keys == Indices(CalcAmountOfChunks(|content.value|)) &&
                (forall i :: i in file.chunks ==> file.chunks[i] == ChunkAt(content.value, garbage, i)) &&
                0 in file.chunks &&
                written == old(written) + ChunkFrame(id, file.chunks[0], version, padding)
    {
      if content == None {
        return ErrorReply(FileNotFound), null;
      }
      if content.value == "" {
        return ErrorReply(EmptyFile), null;
      }
      if refusal.Some? {
        return ErrorReply(refusal.value), null;
      }
      var chunks := GetFileChunks(content.value, garbage);
      AmountIsCover(|content.value|, CalcAmountOfChunks(|content.value|));
      file := new MemoryFile(id, |content.value|, chunks);
      uploadsProgress := uploadsProgress[id := 0];
      written := written + ChunkFrame(id, file.chunks[0], version, padding);
      reply := NoReply;
    }

    /** `handle_upload_chunk_sent`: like the server's, with a progress report before the next write. */
    method HandleUploadChunkSent(file: MemoryFile, version: Uint32, padding: char)
      returns (next: Option<FileChunk>)
      modifies this`uploadsProgress, this`written, this`events, file
      ensures (uploadsProgress, file.AsChain(), next) == ChunkSent(old(uploadsProgress), old(file.AsChain()))
      ensures written == old(written) + FrameOf(file.id, next, version, padding)
      ensures events == if file.id in old(uploadsProgress)
                        then old(events)[file.id := UploadReport(file.fileSize, old(uploadsProgress)[file.id])]
                        else old(events)
    {
      next := None;
      ghost var before := uploadsProgress;
      if file.id in uploadsProgress {
        var current := uploadsProgress[file.id];
        uploadsProgress := uploadsProgress[file.id := current + 1];
        file.chunks := file.chunks - {current};
        events := events[file.id := UploadReport(file.fileSize, current)];
        if current + 1 in file.chunks {
          next := Some(file.chunks[current + 1]);
          written := written + ChunkFrame(file.id, file.chunks[current + 1], version, padding);
        } else {
          uploadsProgress := uploadsProgress - {file.id};
          assert uploadsProgress == before - {file.id};
        }
      }
    }

    /** `start_download`: `info` is the size that the server gives of the file or its refusal, and
        `refusal` its answer to the download request, if it is an error. By then the file is in the
        tables, and stays there. */
    method StartDownload(id: FileId, path: string, pathOk: bool, info: FileInfo, refusal: Option<FileError>)
      returns (reply: Reply)
      requires Valid() && (info.Size? ==> info.fileSize <= MAX_FILE_SIZE)
      modifies this`downloadFiles, this`downloadPaths
      ensures Valid()
      ensures reply == if !pathOk then ErrorReply(InvalidDownloadPath)
                       else if id in old(downloadFiles) then ErrorReply(FileNotFound)
                       else if info.Unavailable? then ErrorReply(info.error)
                       else if refusal.Some? then ErrorReply(refusal.value) else NoReply
      ensures pathOk && id !in old(downloadFiles) && info.Size? ==>
                downloadFiles == old(downloadFiles)[id := Incoming(info.fileSize, map[])] &&
                downloadPaths == old(downloadPaths)[id := path]
      ensures !(pathOk && id !in old(downloadFiles) && info.Size?) ==>
                downloadFiles == old(downloadFiles) && downloadPaths == old(downloadPaths)
    {
      if !pathOk {
        return ErrorReply(InvalidDownloadPath);
      }
      if id in downloadFiles {
        return ErrorReply(FileNotFound);
      }
      if info.Unavailable? {
        return ErrorReply(info.error);
      }
      downloadFiles := downloadFiles[id := Incoming(info.fileSize, map[])];
      downloadPaths := downloadPaths[id := path];
      if refusal.Some? {
        return ErrorReply(refusal.value);
      }
      reply := NoReply;
    }

    /** `handle_packet`. */
    method HandlePacket(buf: string)
      requires Valid()
      modifies this`downloadFiles, this`downloadPaths, this`events, this`saved
      ensures Valid()
      ensures DecodeChunk(buf).None? ==>
                downloadFiles == old(downloadFiles) && downloadPaths == old(downloadPaths) && saved == old(saved) &&
                events == old(events)
      ensures DecodeChunk(buf).Some? ==>
                var (id, chunk) := DecodeChunk(buf).value;
                var (files, outcome) := Receive(old(downloadFiles), id, chunk);
                downloadFiles == files &&
                (outcome.Completed? ==>
                   id in old(downloadPaths) &&
                   HasAllChunks(outcome.file.chunks, CalcAmountOfChunks(outcome.file.fileSize))) &&
                saved == old(saved) + SavedBy(outcome, if outcome.Completed? then old(downloadPaths)[id] else "") &&
                downloadPaths == (if outcome.Completed? then old(downloadPaths) - {id} else old(downloadPaths)) &&
                events == Noted(old(events), id, files, outcome)
    {
      hide Receive, SavedBy, Noted, DecodeChunk, ValidIncoming, HasAllChunks;
      if DecodeChunk(buf).Some? {
        var (id, chunk) := DecodeChunk(buf).value;
        var _ := HandleChunk(id, chunk);
      }
    }

    /** Collects a chunk and notes the progress to report. */
    method HandleChunk(id: FileId, chunk: FileChunk) returns (outcome: Outcome)
      requires Valid()
      modifies this`downloadFiles, this`downloadPaths, this`events, this`saved
      ensures Valid() && (downloadFiles, outcome) == Receive(old(downloadFiles), id, chunk)
      ensures outcome.Completed? ==>
                id in old(downloadPaths) && HasAllChunks(outcome.file.chunks, CalcAmountOfChunks(outcome.file.fileSize))
      ensures saved == old(saved) + SavedBy(outcome, if outcome.Completed? then old(downloadPaths)[id] else "")
      ensures downloadPaths == if outcome.Completed? then old(downloadPaths) - {id} else old(downloadPaths)
      ensures outcome.Completed? ==> events == old(events)[id := outcome.file.fileSize]
      ensures outcome.Stored? ==>
                id in downloadFiles && events == old(events)[id := |downloadFiles[id].chunks| * FILE_CHUNK_SIZE]
      ensures outcome.FileUnknown? || outcome.IndexOutOfRange? ==> events == old(events)
      ensures events == Noted(old(events), id, downloadFiles, outcome)
    {
      hide Receive, ValidIncoming, CalcAmountOfChunks, Reassemble, HasAllChunks, DownloadReport;
      var files, result, content := TakeChunk(downloadFiles, id, chunk);
      ReceiveKeys(downloadFiles, id, chunk);
      downloadFiles, outcome := files, result;
      ghost var noted := Noted(events, id, files, outcome);
      if outcome.Completed? {
        assert SavedBy(outcome, downloadPaths[id]) == [Saved(downloadPaths[id], content)];
        assert noted == events[id := outcome.file.fileSize];
        FinishDownload(id, outcome.file.fileSize, content);
      } else {
        assert saved + SavedBy(outcome, "") == saved;
        assert outcome.Stored? ==> noted == events[id := |files[id].chunks| * FILE_CHUNK_SIZE];
        assert !outcome.Stored? ==> noted == events;
        if outcome.Stored? {
          events := events[id := |files[id].chunks| * FILE_CHUNK_SIZE];
        }
      }
    }

    /** The end of a download: the file is written, its size reported and its path forgotten. */
    method FinishDownload(id: FileId, fileSize: nat, content: string)
      requires ValidTable(downloadFiles) && id in downloadPaths && downloadPaths.Keys == downloadFiles.Keys + {id}
      requires id !in downloadFiles
      modifies this`downloadPaths, this`events, this`saved
      ensures Valid() && saved == old(saved) + [Saved(old(downloadPaths)[id], content)]
      ensures events == old(events)[id := fileSize] && downloadPaths == old(downloadPaths) - {id}
    {
      saved := saved + [Saved(downloadPaths[id], content)];
      events := events[id := fileSize];
      downloadPaths := downloadPaths - {id};
    }

    /** One turn of `events_thread`: hands every noted report to the client and forgets them. */
    method FlushEvents() returns (ghost order: seq<FileId>, delivered: seq<(FileId, nat)>)
      modifies this`events
      ensures events == map[]
      ensures Progress.IsOrderOf(order, old(events)) && delivered == Progress.Listing(order, old(events))
      ensures forall id: FileId :: Progress.Shown(delivered, id) == if id in old(events) then [old(events)[id]] else []
    {
      order, delivered := DeliverAll(events);
      events := map[];
    }

    /** `stop_file_transmission`: `refusal` is the server's answer, if it is an error. */
    method StopFileTransmission(id: FileId, refusal: Option<FileError>) returns (reply: Reply)
      requires Valid()
      modifies this`uploadsProgress, this`downloadFiles, this`downloadPaths
      ensures Valid()
      ensures reply == if id !in old(uploadsProgress) && id !in old(downloadFiles) then ErrorReply(FileNotFound)
                       else if refusal.Some? then ErrorReply(refusal.value) else NoReply
      ensures reply != NoReply ==>
                uploadsProgress == old(uploadsProgress) && downloadFiles == old(downloadFiles) &&
                downloadPaths == old(downloadPaths)
      ensures reply == NoReply ==>
                uploadsProgress == old(uploadsProgress) - {id} && downloadFiles == old(downloadFiles) - {id} &&
                downloadPaths == old(downloadPaths) - {id}
    {
      RemoveKeepsValid(downloadFiles, id);
      if id !in downloadFiles && id !in uploadsProgress {
        return ErrorReply(FileNotFound);
      }
      if refusal.Some? {
        return ErrorReply(refusal.value);
      }
      uploadsProgress := uploadsProgress - {id};
      downloadFiles := downloadFiles - {id};
      downloadPaths := downloadPaths - {id};
      reply := NoReply;
    }
  }
}

/** Cutting a file into fixed-size chunks, the chunk packet that carries one, and putting the
    chunks together again. */
module FileChunks {
  import opened Options
  import opened Parser

  const FILE_CHUNK_SIZE: nat := 8192
  const MAX_FILE_SIZE: nat := 500 * 1000000

  /** A chunk's data buffer. */
  type Buffer = s: string | |s| == FILE_CHUNK_SIZE witness seq(FILE_CHUNK_SIZE, _ => ' ')

  datatype FileChunk = FileChunk(data: Buffer, index: nat)

  function CalcAmountOfChunks(fileSize: nat): nat {
    fileSize / FILE_CHUNK_SIZE + (if fileSize % FILE_CHUNK_SIZE != 0 then 1 else 0)
  }

  /** The count is the only one whose chunks cover the file with a non-empty last chunk, and a
      file within the size limit keeps every buffer offset inside a 32-bit `int`. */
  lemma AmountIsCover(fileSize: nat, n: nat)
    requires fileSize > 0
    ensures n == CalcAmountOfChunks(fileSize)
            <==> n > 0 && (n - 1) * FILE_CHUNK_SIZE < fileSize <= n * FILE_CHUNK_SIZE
    ensures fileSize <= MAX_FILE_SIZE ==> CalcAmountOfChunks(fileSize) * FILE_CHUNK_SIZE < 0x8000_0000
  {
  }

  /** The indices of `n` chunks. */
  function Indices(n: nat): (s: set<nat>)
    ensures forall i: nat :: i in s <==> i < n
    ensures |s| == n
  {
    if n == 0 then {} else Indices(n - 1) + {n - 1}
  }

  // ------------------------------------------------------------ splitting

  /** What `ifstream::read` of one chunk leaves in a buffer: file bytes from `pos` on, and the
      buffer's previous content where the file has ended. */
  function ReadInto(buffer: Buffer, content: string, pos: nat): Buffer
    requires pos <= |content|
  {
    var n := if |content| - pos < FILE_CHUNK_SIZE then |content| - pos else FILE_CHUNK_SIZE;
    content[pos..pos + n] + buffer[n..]
  }

  ghost function ChunkAt(content: string, garbage: nat -> Buffer, i: nat): FileChunk
    requires i < CalcAmountOfChunks(|content|)
  {
    FileChunk(ReadInto(garbage(i), content, i * FILE_CHUNK_SIZE), i)
  }

  /** `files::get_file_chunks`. `garbage(i)` is the unspecified content of the i-th buffer when it
      is allocated; `pos` is the stream's read position. */
  method GetFileChunks(content: string, garbage: nat -> Buffer) returns (chunks: map<nat, FileChunk>)
    ensures chunks.Keys == Indices(CalcAmountOfChunks(|content|))
    ensures forall i :: i in chunks ==> chunks[i] == ChunkAt(content, garbage, i)
  {
    chunks := map[];
    var amount := CalcAmountOfChunks(|content|);
    var pos := 0;
    for i := 0 to amount
      invariant pos == if i * FILE_CHUNK_SIZE < |content| then i * FILE_CHUNK_SIZE else |content|
      invariant chunks.Keys == Indices(i)
      invariant forall j :: j in chunks ==> chunks[j] == ChunkAt(content, garbage, j)
    {
      var data := ReadInto(garbage(i), content, pos);
      pos := if |content| - pos < FILE_CHUNK_SIZE then |content| else pos + FILE_CHUNK_SIZE;
      chunks := chunks[i := FileChunk(data, i)];
    }
  }

  // ----------------------------------------------------------- reassembling

  ghost predicate HasAllChunks(chunks: map<nat, FileChunk>, n: nat) {
    chunks.Keys == Indices(n) && forall i :: i in chunks ==> chunks[i].index == i
  }

  /** The file that a full set of chunks describes, byte by byte. */
  ghost function Reassemble(chunks: map<nat, FileChunk>, fileSize: nat): string
    requires HasAllChunks(chunks, CalcAmountOfChunks(fileSize))
  {
    seq(fileSize, k requires 0 <= k < fileSize => chunks[k / FILE_CHUNK_SIZE].data[k % FILE_CHUNK_SIZE])
  }

  /** Splitting loses nothing, whatever the last buffer held behind the end of the file. */
  lemma ReassembleInvertsSplit(content: string, garbage: nat -> Buffer, chunks: map<nat, FileChunk>)
    requires chunks.Keys == Indices(CalcAmountOfChunks(|content|))
    requires forall i :: i in chunks ==> chunks[i] == ChunkAt(content, garbage, i)
    ensures HasAllChunks(chunks, CalcAmountOfChunks(|content|))
    ensures Reassemble(chunks, |content|) == content
  {
    forall k | 0 <= k < |content|
      ensures Reassemble(chunks, |content|)[k] == content[k]
    {
      ByteOfChunk(content, garbage, k);
    }
  }

  lemma ByteOfChunk(content: string, garbage: nat -> Buffer, k: nat)
    requires k < |content|
    ensures k / FILE_CHUNK_SIZE < CalcAmountOfChunks(|content|)
    ensures ChunkAt(content, garbage, k / FILE_CHUNK_SIZE).data[k % FILE_CHUNK_SIZE] == content[k]
  {
    var i, o := k / FILE_CHUNK_SIZE, k % FILE_CHUNK_SIZE;
    assert k == i * FILE_CHUNK_SIZE + o;
  }

  ghost predicate StrictlySorted(s: seq<FileChunk>) {
    forall i, j :: 0 <= i < j < |s| ==> s[i].index < s[j].index
  }

  ghost predicate Distinct(s: seq<FileChunk>) {
    forall i, j :: 0 <= i < j < |s| ==> s[i].index != s[j].index
  }

  function Insert(c: FileChunk, s: seq<FileChunk>): seq<FileChunk> {
    if s == [] || c.index <= s[0].index then [c] + s else [s[0]] + Insert(c, s[1..])
  }

  /** Stands for `std::sort` by index. */
  function SortChunks(s: seq<FileChunk>): seq<FileChunk> {
    if s == [] then [] else Insert(s[0], SortChunks(s[1..]))
  }

  lemma {:induction false} InsertIs(c: FileChunk, s: seq<FileChunk>)
    ensures forall x :: x in Insert(c, s) <==> x == c || x in s
    ensures |Insert(c, s)| == |s| + 1
  {
    if s != [] && c.index > s[0].index {
      InsertIs(c, s[1..]);
      assert s == [s[0]] + s[1..];
    }
  }

  lemma ConsSorted(c: FileChunk, s: seq<FileChunk>)
    requires StrictlySorted(s) && forall x :: x in s ==> c.index < x.index
    ensures StrictlySorted([c] + s)
  {
  }

  lemma {:induction false} InsertSorts(c: FileChunk, s: seq<FileChunk>)
    requires StrictlySorted(s) && forall x :: x in s ==> x.index != c.index
    ensures StrictlySorted(Insert(c, s))
  {
    if s != [] {
      assert s == [s[0]] + s[1..];
      if c.index > s[0].index {
        InsertSorts(c, s[1..]);
        InsertIs(c, s[1..]);
        ConsSorted(s[0], Insert(c, s[1..]));
      } else {
        ConsSorted(c, s);
      }
    }
  }

  lemma {:induction false} SortSorts(s: seq<FileChunk>)
    requires Distinct(s)
    ensures StrictlySorted(SortChunks(s)) && |SortChunks(s)| == |s|
    ensures forall x :: x in SortChunks(s) <==> x in s
  {
    if s != [] {
      SortSorts(s[1..]);
      InsertSorts(s[0], SortChunks(s[1..]));
      InsertIs(s[0], SortChunks(s[1..]));
      assert s == [s[0]] + s[1..];
    }
  }

  /** `n` strictly sorted chunks with indices below `n` stand at their own index. */
  lemma {:induction false} SortedByPosition(s: seq<FileChunk>, lo: nat)
    requires StrictlySorted(s)
    requires forall x :: x in s ==> lo <= x.index < lo + |s|
    ensures forall i :: 0 <= i < |s| ==> s[i].index == lo + i
  {
    if s != [] {
      var t := s[1..];
      assert s[0] in s;
      forall x | x in t ensures lo + 1 <= x.index < lo + 1 + |t| {
        assert x in s && s[0].index < x.index;
      }
      SortedByPosition(t, lo + 1);
      assert forall i :: 1 <= i < |s| ==> s[i] == t[i - 1];
      if |s| == 1 {
        assert s[0].index == lo;
      } else {
        assert s[0].index < s[1].index;
      }
    }
  }

  newtype int32 = x: int | -0x8000_0000 <= x < 0x8000_0000

  /** `memory::merge_buffers` with its `int` arithmetic: the offset `i * buf_size` must fit. */
  method MergeBuffers(vec: seq<Buffer>) returns (merged: string)
    requires |vec| * FILE_CHUNK_SIZE < 0x8000_0000
    ensures |merged| == |vec| * FILE_CHUNK_SIZE
    ensures forall k :: 0 <= k < |merged| ==> merged[k] == vec[k / FILE_CHUNK_SIZE][k % FILE_CHUNK_SIZE]
  {
    var bufSize: int32 := FILE_CHUNK_SIZE as int32;
    var buf := new char[|vec| * FILE_CHUNK_SIZE];
    var i: int32 := 0;
    while i as int < |vec|
      invariant 0 <= i as int <= |vec|
      invariant forall k :: 0 <= k < i as int * FILE_CHUNK_SIZE ==>
        buf[k] == vec[k / FILE_CHUNK_SIZE][k % FILE_CHUNK_SIZE]
    {
      var offset := (i * bufSize) as int;
      forall k | 0 <= k < FILE_CHUNK_SIZE {
        buf[offset + k] := vec[i][k];
      }
      i := i + 1;
    }
    merged := buf[..];
  }

  /** Reads the chunks out of the map in the unspecified order of an unordered map. */
  method Gather(chunks: map<nat, FileChunk>) returns (gathered: seq<FileChunk>)
    requires forall i :: i in chunks ==> chunks[i].index == i
    ensures Distinct(gathered) && |gathered| == |chunks.Keys|
    ensures forall x :: x in gathered <==> x.index in chunks && x == chunks[x.index]
  {
    gathered := [];
    var todo := chunks.Keys;
    while todo != {}
      invariant todo <= chunks.Keys
      invariant forall x :: x in gathered <==> x.index in chunks.Keys - todo && x == chunks[x.index]
      invariant Distinct(gathered)
      invariant |gathered| + |todo| == |chunks.Keys|
    {
      var i :| i in todo;
      assert forall k :: 0 <= k < |gathered| ==> gathered[k] in gathered;
      gathered := gathered + [chunks[i]];
      todo := todo - {i};
    }
  }

  lemma SortedStandsAtIndex(gathered: seq<FileChunk>, chunks: map<nat, FileChunk>, n: nat)
    requires HasAllChunks(chunks, n) && Distinct(gathered) && |gathered| == n
    requires forall x :: x in gathered <==> x.index in chunks && x == chunks[x.index]
    ensures |SortChunks(gathered)| == n
    ensures forall i :: 0 <= i < n ==> i in chunks && SortChunks(gathered)[i] == chunks[i]
  {
    SortSorts(gathered);
    var sorted := SortChunks(gathered);
    SortedByPosition(sorted, 0);
    forall i | 0 <= i < n ensures i in chunks && sorted[i] == chunks[i] {
      assert sorted[i] in sorted;
    }
  }

  /** The content that both `save_file`s write: gather the chunks, sort, take the buffers,
      merge, and drop the padding. */
  method SavedContent(fileSize: nat, chunks: map<nat, FileChunk>) returns (content: string)
    requires 0 < fileSize <= MAX_FILE_SIZE
    requires HasAllChunks(chunks, CalcAmountOfChunks(fileSize))
    ensures content == Reassemble(chunks, fileSize)
  {
    ghost var n := CalcAmountOfChunks(fileSize);
    AmountIsCover(fileSize, n);
    var gathered := Gather(chunks);
    SortedStandsAtIndex(gathered, chunks, n);
    var sorted := SortChunks(gathered);
    var buffers := seq(|sorted|, i requires 0 <= i < |sorted| => sorted[i].data);
    var merged := MergeBuffers(buffers);
    content := merged[..fileSize];
  }

  // ----------------------------------------------------------- chunk packets

  const CHUNK_HEADER: string := "QUESYNC_FILE_CHUNK"
  const SHUTDOWN_HEADER: string := "QUESYNC_SHUTDOWN_FILE_SESSION"
  const FILE_ID_SIZE: nat := 36

  // Layout of `file_chunk_packet_format`: the header array keeps its terminating zero, and the
  // 64-bit index is aligned to a multiple of eight, which leaves one byte of padding before it.
  const ID_OFFSET: nat := 19
  const DATA_OFFSET: nat := 55
  const PADDING_OFFSET: nat := 8247
  const INDEX_OFFSET: nat := 8248
  const CHUNK_PACKET_SIZE: nat := 8256

  type FileId = s: string | |s| == FILE_ID_SIZE witness seq(FILE_ID_SIZE, _ => ' ')

  /** `file_chunk_packet::encode`; `padding` is the unspecified byte in front of the index. */
  function EncodeChunk(id: FileId, chunk: FileChunk, padding: char): (s: string)
    ensures |s| == CHUNK_PACKET_SIZE
  {
    CHUNK_HEADER + ['\0'] + id + chunk.data + [padding] + LittleEndian(chunk.index, 8)
  }

  function DecodeChunk(buf: string): Option<(FileId, FileChunk)> {
    if |buf| != CHUNK_PACKET_SIZE || buf[..|CHUNK_HEADER|] != CHUNK_HEADER then None
    else Some((buf[ID_OFFSET..DATA_OFFSET],
               FileChunk(buf[DATA_OFFSET..PADDING_OFFSET], FromLittleEndian(buf[INDEX_OFFSET..]))))
  }

  predicate IsShutdown(buf: string) { buf == SHUTDOWN_HEADER }

  /** A chunk packet round-trips, whatever the padding byte, and is no shutdown packet. */
  lemma ChunkRoundTrip(id: FileId, chunk: FileChunk, padding: char)
    requires chunk.index < 0x1_0000_0000_0000_0000
    ensures DecodeChunk(EncodeChunk(id, chunk, padding)) == Some((id, chunk))
    ensures !IsShutdown(EncodeChunk(id, chunk, padding))
  {
    var s := EncodeChunk(id, chunk, padding);
    ChunkLayout(id, chunk, padding);
    assert Power256(8) == 256 * 256 * Power256(6) == 0x1_0000_0000_0000_0000 by {
      assert Power256(6) == 256 * 256 * Power256(4) && Power256(4) == 256 * 256 * Power256(2);
    }
    LittleEndianRoundTrip(chunk.index, 8);
  }

  lemma ChunkLayout(id: FileId, chunk: FileChunk, padding: char)
    ensures var s := EncodeChunk(id, chunk, padding);
            s[..|CHUNK_HEADER|] == CHUNK_HEADER && s[ID_OFFSET..DATA_OFFSET] == id &&
            s[DATA_OFFSET..PADDING_OFFSET] == chunk.data && s[INDEX_OFFSET..] == LittleEndian(chunk.index, 8)
  {
  }

  /** No buffer is both a chunk packet and a shutdown packet, and two chunk packets, of bytes, that
      decode alike can differ only in the header's terminating zero and the padding byte. */
  lemma ChunkDecodeDetermines(a: string, b: string)
    requires DecodeChunk(a).Some? && DecodeChunk(a) == DecodeChunk(b)
    ensures |a| == |b| == CHUNK_PACKET_SIZE && !IsShutdown(a)
    ensures forall k :: 0 <= k < INDEX_OFFSET && k != ID_OFFSET - 1 && k != PADDING_OFFSET
                        ==> a[k] == b[k]
    ensures (forall k :: INDEX_OFFSET <= k < |a| ==> a[k] as int < 256 && b[k] as int < 256)
            ==> a[INDEX_OFFSET..] == b[INDEX_OFFSET..]
  {
    if forall k :: INDEX_OFFSET <= k < |a| ==> a[k] as int < 256 && b[k] as int < 256 {
      LittleEndianDetermines(a[INDEX_OFFSET..], b[INDEX_OFFSET..]);
    }
    forall k | 0 <= k < INDEX_OFFSET && k != ID_OFFSET - 1 && k != PADDING_OFFSET
      ensures a[k] == b[k]
    {
      if k < 18 {
        assert a[..18][k] == b[..18][k];
      } else if k < DATA_OFFSET {
        assert a[ID_OFFSET..DATA_OFFSET][k - ID_OFFSET] == b[ID_OFFSET..DATA_OFFSET][k - ID_OFFSET];
      } else {
        assert a[DATA_OFFSET..PADDING_OFFSET][k - DATA_OFFSET] == b[DATA_OFFSET..PADDING_OFFSET][k - DATA_OFFSET];
      }
    }
  }
}

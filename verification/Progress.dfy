/** Transfer progress from the reports of the file connection, through the latest-per-file
    coalescing of `events_thread`, to the client's list of active transfers. */
module Progress {
  import Lists
  import opened Options
  import opened Parser
  import opened FileChunks
  import opened Transfer

  // ---------------------------------------------------------- reports

  /** Non-decreasing, and below the file size before the last report. */
  ghost predicate Progressive(reports: seq<nat>, fileSize: nat) {
    && (forall i, j :: 0 <= i < j < |reports| ==> reports[i] <= reports[j] && reports[i] < fileSize)
    && (reports != [] ==> reports[|reports| - 1] <= fileSize)
  }

  ghost predicate Finished(reports: seq<nat>, fileSize: nat) {
    reports != [] && reports[|reports| - 1] == fileSize
  }

  /** The reports after the first `k` writes of an upload. */
  ghost function UploadReports(fileSize: nat, k: nat): seq<nat> {
    seq(k, i requires 0 <= i => UploadReport(fileSize, i))
  }

  /** The bytes of a file that stand in its chunks up to `current`. */
  ghost function BytesUpTo(fileSize: nat, current: nat): set<nat> {
    set b: nat | b < fileSize && b / FILE_CHUNK_SIZE <= current
  }

  /** What is reported after a write is how many bytes of the file have been written. */
  lemma UploadReportCounts(fileSize: nat, current: nat)
    ensures UploadReport(fileSize, current) == |BytesUpTo(fileSize, current)|
  {
    var n := UploadReport(fileSize, current);
    assert BytesUpTo(fileSize, current) == Indices(n);
  }

  lemma UploadIsProgressive(fileSize: nat, k: nat)
    requires fileSize > 0 && k <= CalcAmountOfChunks(fileSize)
    ensures Progressive(UploadReports(fileSize, k), fileSize)
    ensures Finished(UploadReports(fileSize, k), fileSize) <==> k == CalcAmountOfChunks(fileSize)
  {
    AmountIsCover(fileSize, CalcAmountOfChunks(fileSize));
  }

  /** The reports that the callbacks of one chain give rise to, for the first `k` completed writes. */
  ghost function ChainReports(progress: map<FileId, nat>, chain: Chain, k: nat): seq<nat>
    decreases k
  {
    if k == 0 || chain.id !in progress then []
    else
      var (progress', chain', _) := ChunkSent(progress, chain);
      [UploadReport(chain.fileSize, progress[chain.id])] + ChainReports(progress', chain', k - 1)
  }

  lemma {:induction false} ChainReportsFrom(progress: map<FileId, nat>, chain: Chain, plan: seq<FileChunk>, k: nat)
    requires chain.id in progress && OnTrack(chain, plan, progress[chain.id])
    ensures var p := progress[chain.id];
            ChainReports(progress, chain, k)
            == seq(if k < |plan| - p then k else |plan| - p, i requires 0 <= i => UploadReport(chain.fileSize, p + i))
    decreases k
  {
    var p := progress[chain.id];
    if k > 0 {
      ChunkSentKeepsTrack(progress, chain, plan);
      var (progress', chain', next) := ChunkSent(progress, chain);
      assert chain'.fileSize == chain.fileSize;
      if p + 1 < |plan| {
        hide OnTrack, UploadReport;
        ChainReportsFrom(progress', chain', plan, k - 1);
      } else {
        hide OnTrack, UploadReport;
      }
    }
  }

  /** A chain that starts with the first chunk reports what `UploadReports` says, and nothing after its
      last write. */
  lemma ChainReportsAreUploadReports(progress: map<FileId, nat>, chain: Chain, plan: seq<FileChunk>, k: nat)
    requires chain.id in progress && progress[chain.id] == 0 && OnTrack(chain, plan, 0)
    ensures ChainReports(progress, chain, k) == UploadReports(chain.fileSize, if k < |plan| then k else |plan|)
  {
    ChainReportsFrom(progress, chain, plan, k);
    hide OnTrack, UploadReport, ChainReports;
  }

  /** The reports of a download: one for every chunk that is stored or completes the file. */
  ghost function DownloadReports(id: FileId, fileSize: nat, packets: seq<FileChunk>): seq<nat> {
    if packets == [] then []
    else
      var init := packets[..|packets| - 1];
      var before, after := Collect(id, fileSize, init), Collect(id, fileSize, packets);
      DownloadReports(id, fileSize, init) +
      (if before.pending.None? || packets[|packets| - 1].index >= CalcAmountOfChunks(fileSize) then []
       else if after.pending.Some? then [DownloadReport(fileSize, |after.pending.value.chunks|)]
       else [fileSize])
  }

  lemma ReportBounds(fileSize: nat, held: nat, more: nat)
    requires held <= more < CalcAmountOfChunks(fileSize)
    ensures DownloadReport(fileSize, held) <= DownloadReport(fileSize, more) < fileSize
  {
    AmountIsCover(fileSize, CalcAmountOfChunks(fileSize));
  }

  /** The reports and the collection before and after one more chunk. */
  lemma ReportsSnoc(id: FileId, fileSize: nat, packets: seq<FileChunk>)
    requires packets != []
    ensures var init := packets[..|packets| - 1];
            var before, after := Collect(id, fileSize, init), Collect(id, fileSize, packets);
            DownloadReports(id, fileSize, packets)
            == DownloadReports(id, fileSize, init) +
               if before.pending.None? || packets[|packets| - 1].index >= CalcAmountOfChunks(fileSize) then []
               else if after.pending.Some? then [DownloadReport(fileSize, |after.pending.value.chunks|)] else [fileSize]
  {
    hide Collect;
  }

  /** For every sequence of chunks the reports are progressive, and finished exactly when the
      file has been saved. */
  lemma {:induction false} DownloadIsProgressive(id: FileId, fileSize: nat, packets: seq<FileChunk>)
    requires fileSize > 0
    ensures var r := DownloadReports(id, fileSize, packets); var c := Collect(id, fileSize, packets);
            Progressive(r, fileSize) && (Finished(r, fileSize) <==> c.saved != []) &&
            (c.pending.Some? ==>
              |c.pending.value.chunks| < CalcAmountOfChunks(fileSize) &&
              (r != [] ==> r[|r| - 1] == DownloadReport(fileSize, |c.pending.value.chunks|)))
  {
    var n := CalcAmountOfChunks(fileSize);
    AmountIsCover(fileSize, n);
    if packets != [] {
      var init := packets[..|packets| - 1];
      DownloadIsProgressive(id, fileSize, init);
      CollectIsOrderInsensitive(id, fileSize, init);
      assert Collect(id, fileSize, init).pending.Some? ==> Collect(id, fileSize, init).saved == [] by {
        hide Covered, FirstCovered;
      }
      DownloadStep(id, fileSize, packets);
      ReportsSnoc(id, fileSize, packets);
      var before, after := Collect(id, fileSize, init), Collect(id, fileSize, packets);
      var r := DownloadReports(id, fileSize, init);
      hide Collect, Covered, Holds, FirstCovered, Progressive, DownloadReports, CalcAmountOfChunks, DownloadReport;
      if before.pending.Some? && packets[|packets| - 1].index < n {
        var held := |before.pending.value.chunks|;
        ReportBounds(fileSize, held, held);
        if after.pending.Some? {
          ReportBounds(fileSize, held, |after.pending.value.chunks|);
        }
        var bytes := if after.pending.Some? then DownloadReport(fileSize, |after.pending.value.chunks|) else fileSize;
        ProgressiveSnoc(r, bytes, fileSize);
      } else {
        assert r + [] == r;
      }
    } else {
      assert Progressive([], fileSize);
    }
  }

  /** The in-range indices that have arrived. */
  ghost function ArrivedIndices(fileSize: nat, packets: seq<FileChunk>): set<nat> {
    set k | 0 <= k < |packets| && packets[k].index * FILE_CHUNK_SIZE < fileSize :: packets[k].index
  }

  lemma HeldIndices(file: Incoming, fileSize: nat, packets: seq<FileChunk>)
    requires Holds(file, fileSize, packets)
    ensures file.chunks.Keys == ArrivedIndices(fileSize, packets)
    ensures |file.chunks| == |ArrivedIndices(fileSize, packets)|
  {
    forall i: nat ensures i in file.chunks <==> i in ArrivedIndices(fileSize, packets) {
      BelowAmount(fileSize, i);
      assert i in file.chunks <==> i < CalcAmountOfChunks(fileSize) && Arrived(packets, i);
    }
    assert |file.chunks| == |file.chunks.Keys|;
    hide CalcAmountOfChunks;
  }

  /** A chunk adds its index if that is in range. */
  lemma ArrivedIndicesSnoc(fileSize: nat, packets: seq<FileChunk>)
    requires packets != []
    ensures var init, last := packets[..|packets| - 1], packets[|packets| - 1].index;
            ArrivedIndices(fileSize, packets)
            == if last * FILE_CHUNK_SIZE < fileSize then ArrivedIndices(fileSize, init) + {last}
               else ArrivedIndices(fileSize, init)
  {
    var n := |packets| - 1;
    var init := packets[..n];
    forall i | i in ArrivedIndices(fileSize, packets)
      ensures i in ArrivedIndices(fileSize, init) || i == packets[n].index
    {
      var k :| 0 <= k < |packets| && packets[k].index == i;
      if k < n {
        assert init[k].index == i;
      }
    }
    forall i | i in ArrivedIndices(fileSize, init) ensures i in ArrivedIndices(fileSize, packets) {
      var k :| 0 <= k < n && init[k].index == i;
      assert packets[k].index == i;
    }
  }

  /** What the latest report says, for any sequence of chunks: the size once every index has arrived,
      and before that so many whole chunks as different indices have. */
  lemma {:induction false} LatestReportCounts(id: FileId, fileSize: nat, packets: seq<FileChunk>)
    requires fileSize > 0
    ensures var reports := DownloadReports(id, fileSize, packets); var n := |ArrivedIndices(fileSize, packets)|;
            (reports == [] <==> n == 0) &&
            (reports != [] ==>
               reports[|reports| - 1]
               == if Covered(packets, CalcAmountOfChunks(fileSize)) then fileSize else n * FILE_CHUNK_SIZE)
  {
    if packets != [] {
      var init, last := packets[..|packets| - 1], packets[|packets| - 1];
      LatestReportCounts(id, fileSize, init);
      ReportsSnoc(id, fileSize, packets);
      CollectIsOrderInsensitive(id, fileSize, init);
      CollectIsOrderInsensitive(id, fileSize, packets);
      ArrivedIndicesSnoc(fileSize, packets);
      BelowAmount(fileSize, last.index);
      if Covered(init, CalcAmountOfChunks(fileSize)) {
        CoveredStays(fileSize, packets);
      } else {
        HeldIndices(Collect(id, fileSize, init).pending.value, fileSize, init);
        if !Covered(packets, CalcAmountOfChunks(fileSize)) {
          var file := Collect(id, fileSize, packets).pending.value;
          HeldIndices(file, fileSize, packets);
          CountIsCoverage(file, fileSize, packets);
        }
      }
      hide *;
    }
  }

  lemma CoveredStays(fileSize: nat, packets: seq<FileChunk>)
    requires fileSize > 0 && packets != [] && Covered(packets[..|packets| - 1], CalcAmountOfChunks(fileSize))
    ensures Covered(packets, CalcAmountOfChunks(fileSize))
    ensures ArrivedIndices(fileSize, packets[..|packets| - 1]) != {}
  {
    var init := packets[..|packets| - 1];
    CoveredGrows(packets, |init|, |packets|, CalcAmountOfChunks(fileSize));
    assert packets[..|packets|] == packets;
    assert Arrived(init, 0);
    var k :| 0 <= k < |init| && init[k].index == 0;
    assert init[k].index in ArrivedIndices(fileSize, init);
  }

  lemma ProgressiveSnoc(r: seq<nat>, bytes: nat, fileSize: nat)
    requires Progressive(r, fileSize) && bytes <= fileSize
    requires r != [] ==> r[|r| - 1] <= bytes && r[|r| - 1] < fileSize
    ensures Progressive(r + [bytes], fileSize)
  {
    forall i, j | 0 <= i < j < |r| + 1
      ensures (r + [bytes])[i] <= (r + [bytes])[j] && (r + [bytes])[i] < fileSize
    {
      assert r[i] <= r[|r| - 1];
    }
  }

  /** One chunk only adds to what is pending, and completes the file when the count is full. */
  lemma DownloadStep(id: FileId, fileSize: nat, packets: seq<FileChunk>)
    requires packets != []
    requires Collect(id, fileSize, packets[..|packets| - 1]).pending.Some? ==>
      Collect(id, fileSize, packets[..|packets| - 1]).pending.value.fileSize == fileSize &&
      |Collect(id, fileSize, packets[..|packets| - 1]).pending.value.chunks| < CalcAmountOfChunks(fileSize)
    ensures var before := Collect(id, fileSize, packets[..|packets| - 1]); var after := Collect(id, fileSize, packets);
            (before.pending.None? ==> after == before) &&
            (before.pending.Some? ==>
              if packets[|packets| - 1].index >= CalcAmountOfChunks(fileSize) then after == before
              else if after.pending.Some?
              then after.saved == before.saved &&
                   |before.pending.value.chunks| <= |after.pending.value.chunks| < CalcAmountOfChunks(fileSize)
              else after.saved != [])
  {
    var before := Collect(id, fileSize, packets[..|packets| - 1]);
    if before.pending.Some? {
      var chunks := before.pending.value.chunks;
      var chunk := packets[|packets| - 1];
      assert chunks[chunk.index := chunk].Keys == chunks.Keys + {chunk.index};
      Lists.SubsetSize(chunks.Keys, chunks.Keys + {chunk.index});
      assert |chunks[chunk.index := chunk].Keys| <= |chunks.Keys| + 1;
    }
  }

  // -------------------------------------------------------- coalescing

  /** A report noted under the events mutex, or one turn of `events_thread`, which delivers the
      noted reports in the unspecified order of an unordered map. */
  datatype Event = Report(id: FileId, bytes: nat) | Flush(order: seq<FileId>)

  datatype Reporter = Reporter(noted: map<FileId, nat>, delivered: seq<(FileId, nat)>)

  ghost predicate IsOrderOf(order: seq<FileId>, noted: map<FileId, nat>) {
    && (forall i, j :: 0 <= i < j < |order| ==> order[i] != order[j])
    && forall id: FileId :: id in order <==> id in noted
  }

  ghost function Listing(order: seq<FileId>, noted: map<FileId, nat>): seq<(FileId, nat)>
    requires forall i :: 0 <= i < |order| ==> order[i] in noted
  {
    seq(|order|, i requires 0 <= i < |order| => (order[i], noted[order[i]]))
  }

  ghost predicate Possible(trace: seq<Event>)
    decreases |trace|, 0
  {
    trace == [] ||
    (Possible(trace[..|trace| - 1]) &&
     (trace[|trace| - 1].Flush? ==>
        IsOrderOf(trace[|trace| - 1].order, After(trace[..|trace| - 1]).noted)))
  }

  ghost function After(trace: seq<Event>): Reporter
    requires Possible(trace)
    decreases |trace|, 1
  {
    if trace == [] then Reporter(map[], [])
    else
      var r := After(trace[..|trace| - 1]);
      match trace[|trace| - 1]
      case Report(id, bytes) => r.(noted := r.noted[id := bytes])
      case Flush(order) => Reporter(map[], r.delivered + Listing(order, r.noted))
  }

  ghost function Reports(trace: seq<Event>, id: FileId): seq<nat> {
    if trace == [] then []
    else
      var r := Reports(trace[..|trace| - 1], id);
      match trace[|trace| - 1]
      case Report(x, bytes) => if x == id then r + [bytes] else r
      case Flush(_) => r
  }

  /** What has been delivered about one file. */
  ghost function Shown(delivered: seq<(FileId, nat)>, id: FileId): seq<nat> {
    if delivered == [] then []
    else
      var last := delivered[|delivered| - 1];
      Shown(delivered[..|delivered| - 1], id) + if last.0 == id then [last.1] else []
  }

  /** `s` arises from `t` by leaving entries out. */
  ghost predicate Subsequence(s: seq<nat>, t: seq<nat>) {
    if t == [] then s == []
    else
      || Subsequence(s, t[..|t| - 1])
      || (s != [] && s[|s| - 1] == t[|t| - 1] && Subsequence(s[..|s| - 1], t[..|t| - 1]))
  }

  lemma {:induction false} SubsequenceInit(s: seq<nat>, x: nat, t: seq<nat>)
    requires Subsequence(s + [x], t)
    ensures Subsequence(s, t)
  {
    assert (s + [x])[..|s|] == s;
    if t != [] && Subsequence(s + [x], t[..|t| - 1]) {
      SubsequenceInit(s, x, t[..|t| - 1]);
    }
  }

  lemma SubsequenceSnoc(s: seq<nat>, t: seq<nat>, x: nat)
    requires Subsequence(s, t)
    ensures Subsequence(s + [x], t + [x])
  {
    assert (t + [x])[..|t|] == t && (s + [x])[..|s|] == s;
  }

  lemma {:induction false} SubsequenceBounds(s: seq<nat>, t: seq<nat>, fileSize: nat)
    requires Subsequence(s, t) && Progressive(t, fileSize)
    ensures Progressive(s, fileSize)
    ensures forall i :: 0 <= i < |s| ==> t != [] && s[i] <= t[|t| - 1]
  {
    if t != [] {
      var t' := t[..|t| - 1];
      if Subsequence(s, t') {
        SubsequenceBounds(s, t', fileSize);
      } else {
        var s' := s[..|s| - 1];
        SubsequenceBounds(s', t', fileSize);
        if t' == [] {
          assert s' == [];
        } else {
          assert t'[|t'| - 1] <= t[|t| - 1] && t'[|t'| - 1] < fileSize;
        }
        assert forall i :: 0 <= i < |s'| ==> s[i] == s'[i];
      }
    }
  }

  lemma {:induction false} ShownAppend(a: seq<(FileId, nat)>, b: seq<(FileId, nat)>, id: FileId)
    ensures Shown(a + b, id) == Shown(a, id) + Shown(b, id)
  {
    if b == [] {
      assert a + b == a;
    } else {
      var b' := b[..|b| - 1];
      ShownAppend(a, b', id);
      assert (a + b)[..|a + b| - 1] == a + b';
    }
  }

  lemma ShownSnoc(a: seq<(FileId, nat)>, e: (FileId, nat), id: FileId)
    ensures Shown(a + [e], id) == Shown(a, id) + if e.0 == id then [e.1] else []
  {
    assert (a + [e])[..|a|] == a;
  }

  lemma ListingSnoc(order: seq<FileId>, last: FileId, noted: map<FileId, nat>)
    requires (forall i :: 0 <= i < |order| ==> order[i] in noted) && last in noted
    ensures forall i :: 0 <= i < |order| + 1 ==> (order + [last])[i] in noted
    ensures Listing(order + [last], noted) == Listing(order, noted) + [(last, noted[last])]
  {
  }

  lemma {:induction false} ShownListing(order: seq<FileId>, noted: map<FileId, nat>, id: FileId)
    requires forall i, j :: 0 <= i < j < |order| ==> order[i] != order[j]
    requires forall i :: 0 <= i < |order| ==> order[i] in noted
    ensures Shown(Listing(order, noted), id) == if id in order then [noted[id]] else []
  {
    if order != [] {
      var order', last := order[..|order| - 1], order[|order| - 1];
      assert order == order' + [last];
      assert last !in order';
      assert id in order <==> id in order' || id == last;
      ShownListing(order', noted, id);
      ListingSnoc(order', last, noted);
      ShownSnoc(Listing(order', noted), (last, noted[last]), id);
      hide Shown, Listing;
    }
  }

  /** Delivered and noted reports of a file together. */
  ghost function Told(r: Reporter, id: FileId): seq<nat> {
    Shown(r.delivered, id) + if id in r.noted then [r.noted[id]] else []
  }

  /** Coalescing only leaves reports out, and never the latest. */
  lemma {:induction false} CoalescingKeepsLatest(trace: seq<Event>, id: FileId)
    requires Possible(trace)
    ensures var told := Told(After(trace), id); var reports := Reports(trace, id);
            Subsequence(told, reports) && (told == [] <==> reports == []) &&
            (told != [] ==> told[|told| - 1] == reports[|reports| - 1])
  {
    if trace != [] {
      var init := trace[..|trace| - 1];
      CoalescingKeepsLatest(init, id);
      var r := After(init);
      var shown, reports := Shown(r.delivered, id), Reports(init, id);
      match trace[|trace| - 1]
      case Report(x, bytes) =>
        if x == id {
          if id in r.noted {
            SubsequenceInit(shown, r.noted[id], reports);
          } else {
            assert shown + [] == shown;
          }
          SubsequenceSnoc(shown, reports, bytes);
          assert Told(After(trace), id) == shown + [bytes];
        }
      case Flush(order) =>
        ShownListing(order, r.noted, id);
        ShownAppend(r.delivered, Listing(order, r.noted), id);
        assert Told(After(trace), id) == Told(r, id) + [];
        assert Told(r, id) + [] == Told(r, id);
    }
  }

  // ---------------------------------------------------- the client's lists

  datatype FilesState = FilesState(
    sizes: map<FileId, nat>, progress: map<FileId, nat>, downloading: seq<FileId>, uploading: seq<FileId>)

  /** FILE_TRANSMISSION_PROGRESS_UPDATE. */
  function UpdateProgress(st: FilesState, id: FileId, bytes: nat): FilesState {
    var done := id in st.sizes && st.sizes[id] == bytes;
    st.(downloading := if id in st.downloading && done then Lists.Without(st.downloading, id) else st.downloading,
        uploading := if id in st.uploading && done then Lists.Without(st.uploading, id) else st.uploading,
        progress := st.progress[id := bytes])
  }

  function Replay(st: FilesState, delivered: seq<(FileId, nat)>): FilesState {
    if delivered == [] then st
    else
      var last := delivered[|delivered| - 1];
      UpdateProgress(Replay(st, delivered[..|delivered| - 1]), last.0, last.1)
  }

  lemma UpdateIs(st: FilesState, x: FileId, bytes: nat, id: FileId)
    requires id in st.sizes
    ensures var t := UpdateProgress(st, x, bytes);
            t.sizes == st.sizes &&
            (id in t.downloading <==> id in st.downloading && !(x == id && bytes == st.sizes[id])) &&
            (id in t.uploading <==> id in st.uploading && !(x == id && bytes == st.sizes[id])) &&
            (x == id ==> id in t.progress && t.progress[id] == bytes) &&
            (x != id ==> (id in t.progress <==> id in st.progress)) &&
            (x != id && id in st.progress ==> t.progress[id] == st.progress[id])
  {
    Lists.WithoutIs(st.downloading, x);
    Lists.WithoutIs(st.uploading, x);
    hide Lists.Without, Lists.NoDuplicates;
  }

  /** A transfer leaves the lists with the first report that equals its file size. */
  lemma {:induction false} ReplayLeaves(st: FilesState, delivered: seq<(FileId, nat)>, id: FileId)
    requires id in st.sizes
    ensures Left(st, Replay(st, delivered), Shown(delivered, id), id)
  {
    if delivered != [] {
      var init, last := delivered[..|delivered| - 1], delivered[|delivered| - 1];
      ReplayLeaves(st, init, id);
      UpdateIs(Replay(st, init), last.0, last.1, id);
      assert Replay(st, delivered) == UpdateProgress(Replay(st, init), last.0, last.1);
      assert Shown(delivered, id) == Shown(init, id) + if last.0 == id then [last.1] else [];
      hide UpdateProgress, Replay, Shown;
    }
  }

  /** What the reports shown of a file have done to its places in the lists. */
  ghost predicate Left(st: FilesState, t: FilesState, shown: seq<nat>, id: FileId)
    requires id in st.sizes
  {
    && t.sizes == st.sizes
    && (id in t.downloading <==> id in st.downloading && st.sizes[id] !in shown)
    && (id in t.uploading <==> id in st.uploading && st.sizes[id] !in shown)
    && (shown != [] ==> id in t.progress && t.progress[id] == shown[|shown| - 1])
  }

  /** If the reports of a file are progressive, then so are those shown to the client,
      and once nothing is noted any more an active transfer is still listed exactly when its
      reports have not reached the file size. */
  lemma ActiveUntilComplete(trace: seq<Event>, id: FileId, st: FilesState)
    requires Possible(trace) && id in st.sizes && Progressive(Reports(trace, id), st.sizes[id])
    requires id !in After(trace).noted
    ensures var shown := Shown(After(trace).delivered, id);
            var t := Replay(st, After(trace).delivered);
            Progressive(shown, st.sizes[id]) &&
            (id in t.uploading <==> id in st.uploading && !Finished(Reports(trace, id), st.sizes[id])) &&
            (id in t.downloading <==> id in st.downloading && !Finished(Reports(trace, id), st.sizes[id]))
  {
    var delivered, reports := After(trace).delivered, Reports(trace, id);
    var shown := Shown(delivered, id);
    CoalescingKeepsLatest(trace, id);
    assert Told(After(trace), id) == shown;
    SubsequenceBounds(shown, reports, st.sizes[id]);
    ReplayLeaves(st, delivered, id);
    if st.sizes[id] in shown {
      var i :| 0 <= i < |shown| && shown[i] == st.sizes[id];
    }
    if Finished(reports, st.sizes[id]) {
      assert shown[|shown| - 1] == st.sizes[id];
    }
  }

  /** An upload from its chain's callbacks to the client's list: once nothing is noted any more it is
      still listed exactly while fewer writes have completed than the file has chunks. */
  lemma UploadListedUntilSent(trace: seq<Event>, id: FileId, st: FilesState, progress: map<FileId, nat>, chain: Chain,
                              plan: seq<FileChunk>, k: nat)
    requires Possible(trace) && id in st.sizes && id !in After(trace).noted
    requires chain.id == id && chain.fileSize == st.sizes[id] > 0 && |plan| == CalcAmountOfChunks(st.sizes[id])
    requires id in progress && progress[id] == 0 && OnTrack(chain, plan, 0)
    requires Reports(trace, id) == ChainReports(progress, chain, k)
    ensures Progressive(Shown(After(trace).delivered, id), st.sizes[id])
    ensures id in Replay(st, After(trace).delivered).uploading <==> id in st.uploading && k < |plan|
  {
    ChainReportsAreUploadReports(progress, chain, plan, k);
    UploadIsProgressive(st.sizes[id], if k < |plan| then k else |plan|);
    hide OnTrack, ChainReports, UploadReports, Progressive, Finished, CalcAmountOfChunks, Possible, After, Reports,
      Replay, Shown;
    ActiveUntilComplete(trace, id, st);
  }

  /** A download from the chunks received to the client's list: once nothing is noted any more it is
      still listed exactly as long as it has not been saved. */
  lemma DownloadListedUntilSaved(trace: seq<Event>, id: FileId, st: FilesState, packets: seq<FileChunk>)
    requires Possible(trace) && id in st.sizes && st.sizes[id] > 0 && id !in After(trace).noted
    requires Reports(trace, id) == DownloadReports(id, st.sizes[id], packets)
    ensures Progressive(Shown(After(trace).delivered, id), st.sizes[id])
    ensures id in Replay(st, After(trace).delivered).downloading
            <==> id in st.downloading && Collect(id, st.sizes[id], packets).saved == []
  {
    DownloadIsProgressive(id, st.sizes[id], packets);
    hide DownloadReports, Progressive, Finished, Collect, Possible, After, Reports, Replay, Shown;
    ActiveUntilComplete(trace, id, st);
  }
}

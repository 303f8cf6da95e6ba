# Quesync: a verified model

Quesync is a voice and text chat system: a C++ server, a C++ client core, and a Redux store in the
client's user interface. This project models the parts of it whose correctness spans several
functions or several machines, and proves what they are for.

| module | what it models |
|---|---|
| `Parser`, `VoicePackets`, `FileChunks` | delimiter splitting, text packets, voice datagrams, packed chunk packets, length-prefixed frames, cutting files into chunks and merging them again |
| `Transfer`, `FileSessions`, `TransferSystem`, `TransferObjects`, `DownloadGuard`, `Progress` | chunked file transfer: the laws of one transfer, the two ends as objects, any interleaving of many transfers over the bytes of one connection, the two as one, when a download is refused, and the progress shown to the user |
| `VoiceServer`, `VoiceHistory`, `CallRecords`, `VoiceManager`, `CallHandlers` | calls on the server: two redundant tables and the call rows, what they say told from the operations of a run, the manager as an object, the packet handlers |
| `VoiceClient`, `VoiceSystem`, `VoiceFlags`, `VoiceLoading`, `VoiceDelivery`, `EventBatches` | calls as the clients see them: a client's replica, the whole system of server and clients, mute and deafen from one user to all, which calls a client hears of, and what becomes of its replica when events are handled late or in the wrong order |
| `Communicator`, `Exchange` | requests and replies of many threads over one socket, as interleaved steps, and what they have sent and got told from those steps |
| `Friendships`, `FriendHistory`, `PrivateChannels`, `Tags` | tables that queries read as something else: symmetric friendships, a map from pairs of users to channels, unique (nickname, tag) pairs |
| `VoiceActivity`, `ChannelContent` | the stream of changes of who is speaking, and the grouping of a channel's messages |
| `Lists`, `Options` | shared vocabulary |

Code that updates an object is modelled as a class whose methods are proved equal to functions on
values; the theorems about runs are about those functions. `dafny verify dfyconfig.toml` checks it all.

## Hypotheses

- SQL statements succeed, UUIDs are fresh, and each packet handler is one step.
- In `VoiceSystem` events are handled one at a time, in the order sent, and before the next step.
  `VoiceDelivery` and `EventBatches` say what late handling and the order of `events_handler` do.
- `join_voice_channel` leaves the current channel first. (As written it would lock a mutex that it
  holds, server/src/voice_manager.cpp:228-233; the handlers have left before they join.)
- `call` is used by clients without a current call, which it does not clear
  (client/src/actions/voiceActions.js:1-10).
- In `VoiceFlags` a client calls and joins with the mute and deafen that it shows: it sends those of its
  devices, which are set together with what it shows (client/backend/src/core/voice.cpp:34, 75-76, 116-147).
- A transfer starts only for an id that is idle at both ends: a second download of an id with a
  write outstanding would share one progress counter (server/src/file_session.cpp:55-60, 274-276).
  `DownloadGuard` needs no more than that no download is asked for again between a stop and the end
  of its last write.
- The size of a file offered for download is within the limit that uploads are held to.
- The random numbers drawn for tags miss no number for ever. The clock of voice activity does not go
  back. Messages have a non-zero time of sending.
- A session is authenticated as a registered user.

## Findings

- An upload of size zero is accepted by the server and can never complete (`Transfer.CompletableIffNonEmpty`).
- A download of a missing or empty file leaves its progress entry behind. Until the transmission is
  stopped, the id is refused as already downloading; for no other file is it refused for good
  (`DownloadGuard.RefusedUntil`, `DownloadGuard.RefusedForGoodIff`).
- A text packet's body survives exactly when it is free of the delimiter (`Parser.ResponseRoundTrip`).
- A reply that nobody has taken when a connection is closed is handed to the first request of the
  next one (`Communicator.RepliesAreLeftOver`, `Communicator.ReconnectionPairsIff`).
- Asking a user who is linked already is answered with an unknown error, never with the intended
  "already friends" (`Friendships.LinkedIsUnknownError`; server/src/user_manager.cpp:309-321).
- A batch of voice events is handled newest first. That shows the user what handling it in order
  would, exactly when the batch leaves every user and every channel as it first has them; a call that
  begins and ends within one batch stays listed (`EventBatches.ReversedBatchAgreesIff`,
  `EventBatches.CallWithinBatchStaysListed`; client/backend/src/core/communicator.cpp:297-303).
- A user who leaves a call with events unhandled keeps or drops the call as the server does exactly
  when those events do not change whether they see anybody connected; otherwise they keep a call that
  is over (`VoiceDelivery.LaggingLeaveAgreesIff`, `VoiceDelivery.LaggingLeaveDisagrees`).
- After a login a client hears of the calls that begin, and of running ones only in the channels that
  it loads, those of friends and pending friends (client/src/updater.js:44-71). A call running with
  anybody else is not listed (`VoiceLoading.ListsWhatIsNewOrLoaded`). A channel loaded again while its
  call is listed is listed twice (`VoiceLoading.StepOnceIff`; client/src/event_handler.js:62).
- Rejecting a friend, or removing somebody who has only asked, makes the client's lists differ from
  the server's (`Friendships.StatusAgreesIff`).
- A download request that the server refuses leaves the file in the client's tables
  (`FileSessions.ClientFiles.StartDownload`; client/backend/src/core/files.cpp:118-134).

## Model

| member | source | states |
|---|---|---|
| Parser.SplitTokens | shared/utils/parser.cpp:8-20 | the `getline` loop computes the recursive splitting used by every law below |
| Parser.SplitAfterJoin | shared/utils/parser.cpp:8-20 | delimiter-free tokens written with their delimiters are split off whatever follows them |
| Parser.SplitInvertsJoin | shared/utils/parser.cpp:8-20 | splitting inverts "each token followed by the delimiter" for all delimiter-free token lists, empty tokens included |
| Parser.JoinInvertsSplit | shared/utils/parser.cpp:8-20 | no token holds the delimiter, and rejoining restores the string up to one final delimiter |
| Parser.JoinBeforeSplit | shared/utils/parser.cpp:8-20 | the first k tokens are a literal prefix of the string and something is left after them |
| Parser.ResponseRoundTrip | shared/response_packet.h:36-71 | parsing an encoded response gives its type always, and its body if and only if the body is free of the delimiter |
| Parser.SerializedRoundTrip | shared/serialized_packet.h:20-55 | the same for requests, and what is received otherwise: the dump cut at its first delimiter |
| Parser.ParseOfPrefix | shared/utils/parser.cpp:22-49 | a packet is its identifier, its type and the rest, each after the other with a delimiter between |
| Parser.TypeFieldParses | shared/utils/parser.cpp:51-55 | the zero-padded three-digit type field is read back as the type for every type from 0 to 999 |
| Parser.HeaderRoundTrip | shared/utils/parser.cpp:57-73 | the eight header bytes carry both 32-bit fields |
| Parser.LittleEndianDetermines | shared/packets/file_chunk_packet.h:76-83 | equal numbers of equally many bytes are equal bytes |
| Parser.LittleEndianAt | shared/utils/parser.cpp:57-73 | byte k of a field is its digit of weight 256^k |
| Parser.ReadFrameOfFrame | shared/utils/parser.cpp:57-73 | one turn of the read loop takes exactly one frame off the stream |
| Parser.PartialFrameWaits | server/src/file_session.cpp:112-159 | a frame of which bytes are missing is not read |
| Parser.ReadLoopRecovers | server/src/file_session.cpp:112-159 | for any sequence of bodies and any number of bytes arrived, the loop has read a prefix of the bodies; with all bytes, exactly the bodies and nothing left |
| Parser.StreamsDetermineBodies | shared/utils/parser.cpp:57-73 | equal byte streams carry equal bodies |
| VoicePackets.VoiceBounds | shared/packets/voice_packet.h:64-78 | once four tokens are found, the unsigned payload length does not wrap and stays inside the datagram |
| VoicePackets.ParticipantBounds | shared/packets/voice_participant_packet.h:56-63 | the same for the relayed datagram |
| VoicePackets.VoiceDataIs | shared/packets/voice_packet.h:60-84 | user, session and channel are the first three tokens in this order, and the payload is what follows them but for the last byte |
| VoicePackets.VoiceRoundTrip | shared/packets/voice_packet.h:43-84 | every payload, delimiters and all, survives if and only if the three ids are delimiter-free |
| VoicePackets.ParticipantRoundTrip | shared/packets/voice_participant_packet.h:37-69 | every payload survives if and only if the user id is delimiter-free |
| VoicePackets.VoiceDecodeInverts | shared/packets/voice_packet.h:60-84 | whatever is accepted, encoding what was decoded restores it but for the last byte |
| VoicePackets.ParticipantDecodeInverts | shared/packets/voice_participant_packet.h:52-69 | the same for the relayed datagram |
| FileChunks.AmountIsCover | shared/utils/files.cpp:30-32 | the number of chunks is the only one that covers the file with a last chunk that is not empty, and within the size limit every buffer offset stays below 2^31 |
| FileChunks.GetFileChunks | shared/utils/files.cpp:3-28 | the loop cuts the file at multiples of 8192, whatever the unread rest of the last buffer holds |
| FileChunks.ReassembleInvertsSplit | shared/utils/files.cpp:3-28 | reassembling the chunks of any content gives the content, for any padding |
| FileChunks.SortSorts | server/src/file_manager.cpp:285-287 | sorting chunks with distinct indices orders them and keeps each of them |
| FileChunks.SortedByPosition | server/src/file_manager.cpp:285-287 | n sorted chunks with distinct indices below n stand at their own index |
| FileChunks.MergeBuffers | shared/utils/memory.h:36-45 | with 32-bit `int` offsets, byte k of the result is byte k mod 8192 of buffer k div 8192 |
| FileChunks.SavedContent | server/src/file_manager.cpp:274-297 | gathering in any order, sorting, merging and truncating writes exactly the reassembled file |
| FileChunks.ChunkRoundTrip | shared/packets/file_chunk_packet.h:47-86 | a chunk packet gives back its 36-byte id, data and 64-bit index for any padding byte, and is not a shutdown packet |
| FileChunks.ChunkLayout | shared/packets/file_chunk_packet.h:14-26 | header at byte 0, id at 19, data at 55, index at 8248 |
| FileChunks.ChunkDecodeDetermines | shared/packets/file_chunk_packet.h:64-86 | packets of bytes that decode alike agree in every byte but the header's terminating zero and the padding byte, the eight index bytes included, and none is a shutdown packet |
| Transfer.StoreKeepsValid | server/src/file_session.cpp:230-253 | indices held stay in range and under their own key, and a full count means all indices |
| Transfer.ReceiveKeepsValid | server/src/file_session.cpp:221-256 | every table of files stays valid under any chunk, and a file that completes is whole |
| Transfer.ReceiveAnswers | server/src/file_session.cpp:221-256 | exactly when a chunk is unknown, out of range, stored or the last one missing, and what each leaves in the table |
| Transfer.CountIsCoverage | server/src/file_session.cpp:243-247 | the test on the number of chunks decides whether all indices have arrived |
| Transfer.CollectIsOrderInsensitive | server/src/file_session.cpp:221-256 | for any sequence of chunks with reorderings, repeats and indices out of range, a file is saved once, at the first moment all indices have arrived, with the last data received under each |
| Transfer.CompletableIffNonEmpty | server/src/file_manager.cpp:74-77 | some sequence of chunks completes a file if and only if its size is not zero, which the size check lets through |
| Transfer.ChunkSentKeepsTrack | client/backend/src/core/files.cpp:446-513 | after a completed write the remaining chunks are exactly those from the new progress on, the next one handed out is the next of the plan, and after the last the entry is gone |
| Transfer.ChainEmitsPlan | client/backend/src/core/files.cpp:432-514 | an undisturbed chain writes every later chunk once, in ascending order, and terminates |
| FileSessions.TakeChunk | server/src/file_session.cpp:221-256 | the branch shared by both receivers does what `Receive` says, and on completion yields the reassembled content |
| FileSessions.FileSession.AddUploadFile | server/src/file_session.cpp:31-41 | the size limit and duplicate ids are refused, otherwise an empty entry is made |
| FileSessions.FileSession.HandlePacket | server/src/file_session.cpp:178-259 | authentication, shutdown, refusal and chunk handling in the code's order, with the reply, table and saved files of every case |
| FileSessions.FileSession.AddDownloadFile | server/src/file_session.cpp:43-87 | table and reply are those of `AddDownload`, in which the entry stays behind on failure; on success all chunks are held and the first frame is written |
| FileSessions.FileSession.HandleDownloadChunkSent | server/src/file_session.cpp:261-318 | one completion does to the table, the chunks and the socket what `ChunkSent` says |
| FileSessions.FileSession.RemoveFile | server/src/file_session.cpp:89-99 | both tables lose the id and nothing else |
| FileSessions.ClientFiles.StartUpload | client/backend/src/core/files.cpp:23-85 | a file that cannot be opened, an empty one and a request that the server refuses change nothing; otherwise the chunks, the progress entry and the first frame |
| FileSessions.ClientFiles.HandleUploadChunkSent | client/backend/src/core/files.cpp:432-514 | as on the server, with the bytes reported before the next write |
| FileSessions.ClientFiles.StartDownload | client/backend/src/core/files.cpp:87-135 | every refusal before the tables are touched, and that they keep the file when the download request itself is refused |
| FileSessions.ClientFiles.HandlePacket | client/backend/src/core/files.cpp:184-252 | collects as `Receive` says, saves the reassembled content under the path given, and notes the report of every case; anything but a chunk changes nothing |
| FileSessions.ClientFiles.HandleChunk | client/backend/src/core/files.cpp:196-240 | the same for one chunk, with the report written out: the file's size on completion, 8192 bytes for every chunk held before it, none otherwise |
| FileSessions.ReceiveKeys | client/backend/src/core/files.cpp:213-238 | on completion the report that the formula gives is the file's size, before it the bytes of the chunks held |
| FileSessions.NotesAreDownloadReports | client/backend/src/core/files.cpp:184-252 | however the chunks of many downloads are mixed, what is noted of one of them are the reports of collecting its own chunks, and the table awaits it as long as they do not complete it |
| FileSessions.ListedWhileAwaited | client/src/reducers/filesReducer.js:77-80 | from the packets of many downloads to the client's list: a download is listed exactly as long as the table awaits chunks of it |
| FileSessions.DeliverAll | client/backend/src/core/files.cpp:268-274 | the loop, in any order of the map, tells of each file with a report once, of the latest |
| FileSessions.ClientFiles.FlushEvents | client/backend/src/core/files.cpp:268-277 | one turn delivers, in some order, exactly one report for each file noted, the latest, and none stays noted: the `Flush` of `Progress` |
| FileSessions.ClientFiles.StopFileTransmission | client/backend/src/core/files.cpp:137-166 | an id in neither table is refused, a refusal by the server removes nothing, otherwise both tables lose the id |
| TransferSystem.DeliverReadsHead | server/src/file_session.cpp:112-159 | the bytes at the head of the wire decode to the oldest chunk written |
| TransferSystem.DeliverOwn | server/src/file_session.cpp:221-256 | the file of the oldest message gains its next chunk, or is saved as its original content with the last |
| TransferSystem.StepKeeps | client/backend/src/core/files.cpp:396-514 | what wire, tables, chains and plans agree on, kept by starting, completing a write, delivering and stopping at either end |
| TransferSystem.EveryRunSavesOriginals | server/src/file_manager.cpp:256-310 | in every interleaving of many transfers over one byte stream, each start is matched by one save of exactly its bytes, one stop by the receiver, or a file still under way; what has been started is what the steps say |
| TransferSystem.QuietRunHasSavedAll | server/src/file_session.cpp:221-256 | when every chain has ended and the wire is drained, only files whose sender was stopped are still awaited, and every start of any other was saved once or given up by the receiver |
| TransferSystem.UnstoppedIsSaved | server/src/file_manager.cpp:256-310 | then, of a file that nobody has stopped, exactly the contents have been saved with which the steps have started it, each as often |
| TransferSystem.StoppedChainIsSilent | client/backend/src/core/files.cpp:446-447 | after a stop, in any run without a new start of the file, it stays off the table, and a completing write of it ends its chain without a further one |
| TransferObjects.UploadLink.Start | client/backend/src/core/files.cpp:58-82 | the server's and the client's methods together make the start of `TransferSystem`, bytes on the wire included |
| TransferObjects.UploadLink.WriteDone | client/backend/src/core/files.cpp:432-514 | the callback on the shared file object makes the completion step |
| TransferObjects.UploadLink.Deliver | server/src/file_session.cpp:112-159 | reading a frame and handling it makes the delivery step, saved files included |
| TransferObjects.UploadLink.StopSender | client/backend/src/core/files.cpp:159-165 | the client's part of a stop makes the sender's stop |
| TransferObjects.UploadLink.StopReceiver | server/src/file_session.cpp:89-99 | the server's part of a stop makes the receiver's stop |
| DownloadGuard.RefusedUntil | server/src/file_session.cpp:54-66 | in every run after a request for an idle id: refused at every moment if the file is missing or empty, else exactly until as many writes have completed as the file has chunks; never just after a stop |
| DownloadGuard.RefusedForGoodIff | server/src/file_session.cpp:54-66 | an id is refused in every run without a stop of it if and only if the file is missing or empty |
| DownloadGuard.StepWhileSending | server/src/file_session.cpp:261-318 | while a file is sent, only its own completions advance it, and the last frees its id |
| Progress.ChainReportsAreUploadReports | client/backend/src/core/files.cpp:446-513 | the first k callbacks of a chain report what the formula says, and none after its last write |
| Progress.UploadReportCounts | client/backend/src/core/files.cpp:457-460 | what is reported after a write is how many bytes of the file stand in the chunks written |
| Progress.UploadIsProgressive | client/backend/src/core/files.cpp:457-469 | the reports of an upload never decrease, stay below the size before the last chunk, and equal it exactly then |
| Progress.DownloadIsProgressive | client/backend/src/core/files.cpp:209-251 | the same for any sequence of chunks received, and the size is reported exactly when the file has been saved |
| Progress.LatestReportCounts | client/backend/src/core/files.cpp:209-238 | for any sequence of chunks the latest report is the size once every index has arrived, and before that so many whole chunks as different indices have |
| Progress.CoalescingKeepsLatest | client/backend/src/core/files.cpp:254-279 | what is delivered and noted of a file is a subsequence of its reports that ends with the latest |
| Progress.SubsequenceBounds | client/backend/src/core/files.cpp:254-279 | leaving reports out keeps them progressive |
| Progress.ReplayLeaves | client/src/reducers/filesReducer.js:69-93 | a transfer leaves the active lists with the first report equal to its size, and not otherwise |
| Progress.ActiveUntilComplete | client/src/reducers/filesReducer.js:69-93 | if the reports of a file are progressive, so are those shown, and it is still listed exactly while its reports have not reached its size |
| Progress.UploadListedUntilSent | client/src/reducers/filesReducer.js:82-85 | from a chain's callbacks to the list: an upload is listed exactly while fewer writes have completed than it has chunks |
| Progress.DownloadListedUntilSaved | client/src/reducers/filesReducer.js:77-80 | from the chunks received to the list: a download is listed exactly as long as it has not been saved |
| VoiceServer.LeaveKeeps | server/src/voice_manager.cpp:251-292 | leaving keeps both tables and the call rows consistent, closing the call when nobody is left |
| VoiceServer.EnterKeeps | server/src/voice_manager.cpp:226-249 | so does joining |
| VoiceServer.InitKeeps | server/src/voice_manager.cpp:198-218 | so does opening a channel |
| VoiceServer.SetStateKeeps | server/src/voice_manager.cpp:333-361 | so does a change of mute or deafen |
| VoiceServer.ExpireKeeps | server/src/voice_manager.cpp:315-329 | so does the timeout of a pending user |
| VoiceServer.OpEvolvesRows | server/src/voice_manager.cpp:437-484 | no operation removes a call row, changes its caller or channel, touches one that has ended, or removes a participant |
| VoiceServer.RunIsConsistent | server/src/voice_manager.cpp:198-331 | from any consistent state on every run stays consistent, and call rows only evolve |
| VoiceServer.EveryRunIsConsistent | server/src/voice_manager.cpp:198-331 | over every run from the start: connected in a channel if and only if the joined table says so, open rows one-to-one with active channels, every active channel occupied or not joined since it was opened, each call opened once and closed at most once |
| VoiceServer.StatesTell | server/src/voice_manager.cpp:294-304 | a channel has states exactly when an open call names it, and who is connected in them is who has joined |
| VoiceHistory.OpAnswers | server/src/voice_manager.cpp:198-361 | the exact condition of every answer of the manager, in its state before |
| VoiceHistory.LeaveTells | server/src/voice_manager.cpp:265-288 | whoever leaves is shown as disconnected, with mute and deafen as they were, to exactly the others who have joined the channel; if there are none, everybody else listed hears that the call is over |
| VoiceHistory.CellTurns | server/src/voice_manager.cpp:198-361 | what each operation makes of one user's state in one channel, and of no other |
| VoiceHistory.StatesTellHistory | server/src/voice_manager.cpp:198-361 | in every run, of every active channel: pending exactly while the call rings for the user, from its start until they join or a check finds more than 20 seconds gone; connected exactly while joined; otherwise disconnected; mute and deafen as last settled |
| CallRecords.EveryCallIsRecorded | server/src/voice_manager.cpp:437-484 | in every run a call has a record exactly if it was started, naming who started it and where; its participants are exactly those who joined while it ran; it has an end exactly if it does not run any more, the time of the leave that ended it |
| VoiceManager.MakePending | server/src/voice_manager.cpp:209-212 | the loop makes every user pending with both flags off |
| VoiceManager.VoiceManager.TriggerVoiceStateEvent | server/src/voice_manager.cpp:419-435 | the event goes once to each connected user but the subject |
| VoiceManager.VoiceManager.InitVoiceChannel | server/src/voice_manager.cpp:198-218 | state, events and answer are those of `InitChannel` |
| VoiceManager.VoiceManager.LeaveVoiceChannel | server/src/voice_manager.cpp:251-292 | state, events and answer are those of `Leave`; the user is in no channel afterwards |
| VoiceManager.VoiceManager.SomeoneIn | server/src/voice_manager.cpp:272-277 | the loop finds somebody if and only if somebody has joined the channel |
| VoiceManager.VoiceManager.JoinVoiceChannel | server/src/voice_manager.cpp:226-249 | state, events and answer are those of a leave followed by an entry |
| VoiceManager.VoiceManager.SetVoiceState | server/src/voice_manager.cpp:333-361 | state, events and answer are those of `SetState` |
| VoiceManager.VoiceManager.HandleVoiceStates | server/src/voice_manager.cpp:306-331 | one turn is a sweep over the listed users in some order, after which nobody is overdue |
| VoiceManager.VoiceManager.GetVoiceStates | server/src/voice_manager.cpp:294-304 | a consistent manager refuses exactly when no open call row names the channel, and whoever is connected in its answer is who has joined the channel |
| VoiceManager.SweepConcat | server/src/voice_manager.cpp:306-331 | sweeping channel by channel is one sweep |
| CallHandlers.EncodeStates | shared/packets/join_call_request_packet.h:65-81 | the reply holds every other user's state and not the caller's |
| CallHandlers.HandleJoinCall | shared/packets/join_call_request_packet.h:39-90 | leaving, joining and answering leave the manager in the state, with the events and the reply of the specified join; a refused join has still left |
| CallHandlers.HandleCall | shared/packets/call_request_packet.h:41-120 | the same for starting a call: both refusals by the channel's members first, which change nothing, then leaving, opening, joining, answering and telling every other member |
| CallHandlers.AnnounceCall | shared/packets/call_request_packet.h:103-109 | the loop tells every listed user but the caller |
| CallHandlers.HandleLeaveCall | shared/packets/leave_call_packet.h:20-42 | the handler's state, events and answer are those of `Leave` |
| CallHandlers.JoinReplies | shared/packets/join_call_request_packet.h:39-90 | a join is approved exactly if the channel has a call that goes on without the user; the reply holds everybody else's state as it was |
| CallHandlers.CallReplies | shared/packets/call_request_packet.h:41-120 | a call is refused exactly if the channel has one that goes on without the caller; otherwise its row, its one participant, everybody else pending, and the event that tells them |
| CallHandlers.JoinStepIsHandler | client/src/actions/voiceActions.js:12-31 | the join step of the system is its handler between the client's clearing and its taking up the reply |
| CallHandlers.CallStepIsHandler | client/src/actions/voiceActions.js:1-10 | the call step of the system is its handler, with the reply taken up |
| VoiceClient.ReceiveAppend | client/src/event_handler.js:309-327 | handling two batches of events is handling one after the other |
| VoiceSystem.StateEventReaches | server/src/voice_manager.cpp:419-435 | a state event changes exactly the other clients in the channel, and there the subject's entry |
| VoiceSystem.LeaveMirrors | server/src/voice_manager.cpp:251-292 | after a leave every client's map is again the server's without the client |
| VoiceSystem.EnterMirrors | shared/packets/join_call_request_packet.h:65-81 | after an entry too, the newcomer's from the snapshot |
| VoiceSystem.LeaveDecisionsAgree | client/src/reducers/voiceReducer.js:74-106 | the leaving client finds nobody connected if and only if the server closes the call, and exactly then everybody else listed is told that it ended |
| VoiceSystem.LeaveActives | client/src/reducers/voiceReducer.js:167-185 | after a leave every client still lists exactly the active calls that it has heard of |
| VoiceSystem.CallActives | client/src/reducers/voiceReducer.js:143-165 | and after a new call |
| VoiceSystem.ClearCommutes | client/src/actions/voiceActions.js:17-23 | clearing the current call before the leave's events or after them comes to the same |
| VoiceSystem.JoinCallIsLeaveThenEnter | client/src/actions/voiceActions.js:12-31 | the client's and the handler's order of leaving and joining come to the same |
| VoiceSystem.StepKeepsInvariant | client/src/reducers/voiceReducer.js:26-185 | calls, joins, leaves, mute changes, timeouts, logins, logouts, new channels and channels loaded keep all replicas |
| VoiceSystem.LoadKeepsInvariant | client/src/updater.js:76-94 | and after a channel is loaded |
| VoiceSystem.ReplicasAgree | client/src/reducers/voiceReducer.js:26-115 | in every run each client's map is the server's for its channel without the client, in state, mute and deafen; a client without a call is in none on the server; and it lists exactly the active calls of its channels that it has heard of |
| VoiceFlags.ShownIsChosen | client/src/reducers/voiceReducer.js:126-131 | who is online, and the mute and deafen that a client shows, are as the steps have it |
| VoiceFlags.ChosenIsSeen | server/src/voice_manager.cpp:333-361 | in every run the mute and deafen that a user in a call has last chosen are those that their client shows, those that the server has, and those that every other client in the call shows of them |
| VoiceLoading.MembersTellHistory | server/src/channel_manager.cpp:63-69 | the members of a channel are those it was created with, before the run or in it |
| VoiceLoading.StepContinues | server/src/voice_manager.cpp:198-218 | in no step does a channel trade its call for another, and a new call has a new row |
| VoiceLoading.NeverAgain | server/src/voice_manager.cpp:437-455 | a call that a channel does not run any more it never runs again |
| VoiceLoading.ListsWhatIsNewOrLoaded | client/src/updater.js:44-94 | in every run from a login on: of the active calls of its channels the client lists exactly those that have begun since and those whose channel it has loaded since |
| VoiceLoading.StepOnceIff | client/src/updater.js:89-91 | a step leaves every call listed once if and only if it does not load a channel whose call is listed |
| VoiceLoading.RunListsOnce | client/src/reducers/voiceReducer.js:133-141 | so calls are listed once each in every run without such a step |
| VoiceDelivery.StepDelivers | client/src/event_handler.js:309-327 | in a step of somebody else a client does nothing but handle the step's events |
| VoiceDelivery.LaggingClientCatchesUp | client/src/event_handler.js:309-327 | having handled any prefix of the events of any run in which its user does nothing, a client agrees with the server once it has handled the rest |
| VoiceDelivery.RunSpares | server/src/voice_manager.cpp:272-285 | while somebody stays in a channel, nothing sent to anybody ends its call |
| VoiceDelivery.LaggingLeaveAgreesIff | client/src/reducers/voiceReducer.js:74-106 | a client that leaves after handling any prefix of the events has the call listed, and ends it as the server does if and only if its unhandled events do not change whether it sees anybody connected |
| VoiceDelivery.LaggingLeaveDisagrees | server/src/voice_manager.cpp:279-285 | if the last two leave and the second has not heard of the first, the second's client keeps the call listed, if it was, though the server has closed it, and is not told |
| EventBatches.HandleBatch | client/backend/src/core/communicator.cpp:296-316 | the loop handles a batch in reverse |
| EventBatches.HandleIs | client/src/event_handler.js:275-327 | of every user and channel a client shows what the event on it handled last says, and else what it showed |
| EventBatches.ReversedBatchAgreesIff | client/backend/src/core/communicator.cpp:296-316 | for every batch of voice events, handling it in reverse shows what handling it in order does if and only if its oldest and its newest word on every user and every channel are the same |
| EventBatches.CallWithinBatchStaysListed | client/backend/src/core/communicator.cpp:296-316 | a call that begins and ends within a batch is listed after it, though it is over |
| Communicator.RepliesArePaired | client/backend/src/core/communicator.cpp:319-368 | in every interleaving no two threads await a reply, the vector holds at most one, and every send returns the server's answer to its own request, never an event |
| Communicator.KeepsAtMostOne | server/src/session.cpp:64-137 | the one outstanding request is in exactly one place: on its way, being served, on its way back, received, or waiting |
| Communicator.KeepsLocks | client/backend/src/core/communicator.cpp:328-329 | each mutex has the one owner that the threads' positions say |
| Communicator.KeepsNoLostWakeUp | client/backend/src/core/communicator.cpp:208-216 | nobody sleeps while a response is in the vector |
| Communicator.KeepsAuthentic | server/src/session.cpp:94-112 | every reply under way is the server's answer, and a request is answered once |
| Communicator.PairedIffNothingStale | client/backend/src/core/communicator.cpp:353-363 | replies are paired in every run if and only if the vector starts out empty |
| Communicator.RepliesAreLeftOver | client/backend/src/core/communicator.cpp:19-68 | a connection closed when a reply has just been read leaves it behind |
| Communicator.ReconnectionPairsIff | client/backend/src/core/communicator.cpp:19-68 | after any run of one connection, replies are paired in every run of the next if and only if the first was closed with no reply received that nobody had taken; there is at most one |
| Communicator.AllEventsHandled | client/backend/src/core/communicator.cpp:171-317 | events are filed in the order sent, each handled at most once, and all of them once nothing is under way |
| Communicator.SomebodyCanHelp | client/backend/src/core/communicator.cpp:348-352 | while a reply is awaited some thread, the server or the receiver can act: no deadlock |
| Communicator.HelpBringsReply | client/backend/src/core/communicator.cpp:348-361 | however such actions are scheduled, a bounded number of them brings the reply |
| Exchange.SendsAreAnswered | client/backend/src/core/communicator.cpp:319-368 | in every interleaving the sends that have returned are the first ones made, in order, each to the thread that made it with the reply that the server gave to it; at most one other is under way; and what the server is handed is always the first request not answered, as it was sent |
| Exchange.AnsweredAsSent | server/src/session.cpp:64-137 | whenever the server answers, it has received the next request in order, as it was sent |
| Exchange.TurnsReverse | client/backend/src/core/communicator.cpp:285-317 | whatever else happens meanwhile, a turn of the handler handles exactly the events filed since its last turn, newest first |
| Friendships.UserManager.GetFriends | server/src/user_manager.cpp:230-260 | the fetch loop lists the other side of each approved row |
| Friendships.UserManager.GetFriendRequests | server/src/user_manager.cpp:262-293 | the fetch loop lists the other side of each unapproved row, with its role |
| Friendships.UserManager.SendFriendRequest | server/src/user_manager.cpp:295-336 | table, answer and event of every case |
| Friendships.LinkedIsUnknownError | server/src/user_manager.cpp:309-321 | the answer is an unknown error if and only if the recipient exists and a row of either direction links the two, and never "already friends" |
| Friendships.SendAnswers | server/src/user_manager.cpp:295-336 | the exact condition of every answer to a request |
| Friendships.UserManager.SetFriendshipStatus | server/src/user_manager.cpp:338-422 | table, answer and event of every case |
| Friendships.LinkIs | server/src/user_manager.cpp:357-369 | the row fetched for two users is the one that links them, whoever asked |
| Friendships.FriendsOfIs | server/src/user_manager.cpp:230-260 | a user's friends, each once, are those with an approved row in either direction |
| Friendships.RequestsOfIs | server/src/user_manager.cpp:262-293 | a user's requests, one per friend, are the unapproved rows, typed by the friend's side |
| Friendships.SendRows | server/src/user_manager.cpp:308-326 | a request adds one row between two users who had none, and keeps one row per pair |
| Friendships.StatusRows | server/src/user_manager.cpp:356-421 | an approval turns exactly the other's request, an ending removes exactly the row of the two, anything else changes nothing |
| Friendships.StatusAnswers | server/src/user_manager.cpp:338-422 | the exact condition of every answer to an approval or an ending, in the row between the two users |
| Friendships.SendKeepsInvariant | client/src/event_handler.js:55-73 | after a request both sides' lists are the server's |
| Friendships.StatusAgreesIff | client/src/reducers/userReducer.js:32-104 | after approving, rejecting or removing, the user's own lists are the server's if and only if the button fitted the list |
| Friendships.StatusOthers | client/src/event_handler.js:101-203 | and everybody else's are, always |
| Friendships.ListsAgree | client/src/reducers/userReducer.js:32-104 | in every run: at most one row for two users and none for one, and every online user's lists equal the server's, without repetition and disjoint |
| FriendHistory.TableTellsHistory | server/src/user_manager.cpp:295-422 | in every run, whichever buttons are used, the table says of any two users what their own steps have led to: strangers may ask, whoever is asked may approve, either may end it |
| PrivateChannels.ChannelManager.AddMemberToChannel | server/src/channel_manager.cpp:95-118 | unknown channels and present members are refused, otherwise one row is added |
| PrivateChannels.ChannelManager.GetPrivateChannel | server/src/channel_manager.cpp:29-76 | every refusal, the channel found, or a new one with both members, neither of whom is refused |
| PrivateChannels.QueryIs | server/database-dump.sql:158-173 | the grouped query finds the channels whose members are exactly the two users |
| PrivateChannels.LookKeeps | server/src/channel_manager.cpp:58-73 | a lookup keeps every channel private, with two members, and no two with the same |
| PrivateChannels.LookAnswers | server/src/channel_manager.cpp:29-76 | the exact condition of every answer to a lookup; a channel is given exactly when an authenticated user asks for another registered one, it is private and its members are the two, and it is new exactly if they had none |
| PrivateChannels.PairsMapToChannels | server/database-dump.sql:158-173 | at most one channel for two users in either order, and none for one |
| PrivateChannels.PairsDoNotShare | server/database-dump.sql:158-173 | different pairs never share a channel |
| PrivateChannels.LookupsAreStable | server/src/channel_manager.cpp:29-76 | once two users have a channel every later lookup by either of them gives the same |
| PrivateChannels.ChannelsTellHistory | server/src/channel_manager.cpp:29-76 | over every run two users share a channel exactly if one of them, authenticated, has looked the other up, who was registered by then |
| VoiceActivity.Manager.ActivateVoice | client/backend/src/core/voice/manager.cpp:326-342 | both branches do what `Activate` says |
| VoiceActivity.Manager.Flush | client/backend/src/core/voice/manager.cpp:298-323 | in any order of users the loop lowers exactly the flags whose timeout has passed and hands out exactly the changes |
| VoiceActivity.ReplayShowsFlags | client/src/reducers/voiceReducer.js:117-124 | after every flush the client shows exactly those whose flag is up and whom it has not dropped, by emptying its map, since it was told |
| VoiceActivity.TableRemembers | client/backend/src/core/voice/manager.cpp:326-342 | the table holds when each user last spoke, and a lowered flag means 250 ms of silence |
| VoiceActivity.ShownSpokeRecently | client/backend/src/core/voice/manager.cpp:298-323 | just after a flush exactly those are shown as speaking who have spoken less than 250 ms before and whom the client has not dropped since it was told |
| VoiceActivity.FlushTells | client/backend/src/core/voice/manager.cpp:298-342 | a flush tells of exactly those whose flag has gone up since the last or goes down with this one, and what it now is |
| ChannelContent.SortSorts | client/src/components/channel.jsx:54-61 | sorting orders by date, is a permutation, and leaves elements of one date in order |
| ChannelContent.GetChannelContent | client/src/components/channel.jsx:42-95 | the loop's groups flatten to the sorted content, each is a run of one sender with gaps of at most an hour, and no two neighbours could be merged |
| ChannelContent.BubblesEndWhere | client/src/components/channel.jsx:63-92 | two neighbours in the sorted content are shown in one bubble exactly when they are messages by one sender at most an hour apart |
| ChannelContent.GroupingIsUnique | client/src/components/channel.jsx:63-92 | those three properties determine the grouping |
| Tags.FreeTagExists | shared/utils/server.cpp:23-26 | fewer users than tags leave a tag free |
| Tags.GenerateTag | shared/utils/server.cpp:7-34 | refuses exactly at the limit, otherwise terminates with a tag in range that nobody has |
| Tags.UserManager.RegisterUser | server/src/user_manager.cpp:113-165 | username or email in use, by any user found, nickname full, or one new user with a free tag |
| Tags.RegisterAnswers | server/src/user_manager.cpp:113-165 | the exact condition of every answer to a registration; only a registration that is made changes the table, by the one new user |
| Tags.RegisterKeeps | server/src/user_manager.cpp:113-150 | a registration keeps usernames, emails and (nickname, tag) pairs unique and no nickname above 9999 users |
| Tags.RunKeeps | shared/utils/server.cpp:7-34 | so does every run, and every nickname has a free tag at every moment |

## Left out

- Sockets, TLS, scheduling, failed SQL statements, the file system, process start-up and shutdown.
- Audio capture and playback, encryption, key derivation and random bytes.
- JSON: bodies are opaque strings, and `verify` of the packets is not modelled.
- The steps of reconnecting and tearing down, but for what `clean_connection` leaves behind, and requests that fail to be sent.
- Login and session bookkeeping: whether a session is accepted is a parameter; a login loads its lists in one step.
- One-time passwords, voice sessions and the relay of voice datagrams.
- The call logs, their end dates and the join date kept by `voiceReducer`.
- The time at which a friend request was sent, which server and client take from different clocks.
- SQL collation: names and emails are compared exactly, where the tables compare them without case and accents.
- Password, email and nickname validation, profiles, photos, search, paging, badges and pings.
- Changes of the members of an existing channel, which the program never makes.
- The download direction of `TransferObjects`, whose two ends have the same contracts.
- File metadata rows, and the registry of file sessions by user.
- Aliasing of `memory_file` on the receiving side: until a file is complete only the table reaches it, so the table holds values there.
- FileSessions.FileSession.HandlePacket: a shutdown only records that the session is closed; what its callback then does with the session's user is not modelled.
- VoiceManager.VoiceManager.JoinVoiceChannel: gives the intended leave first for a user who has joined, where the code would lock a mutex that it holds.
- CallHandlers.HandleJoinCall: the voice session, one-time password and keys of the reply.
- CallHandlers.HandleCall: the voice session, one-time password and keys of the reply.
- CallHandlers.HandleLeaveCall: the deletion of the voice session.
- Friendships.UserManager.GetFriendRequests: the time of sending.
- Tags.UserManager.RegisterUser: the validation of the input and the session that becomes authenticated.
- Tags.GenerateTag: termination rests on the random source being fair, which the code cannot see.

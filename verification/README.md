# webos: verified core

This project models the parts of webos whose correctness is hard to see from the code: the Sudoku solver of
the sample app, the ADB device stack (byte framing, stream router, USB transmit queue, logcat, file upload,
interactive shell), the `/dev` file system, and the log ring, UTF-8, path-grant and JSON helpers. Dafny proves
the properties below for every input, every run and every failure of the surroundings.

How the surroundings appear:

- The transport, memory allocation, file operations, callbacks and the shell are arbitrary total functions, indexed
  by how often they were asked. A theorem that mentions none of them holds for all of them.
- A section under one lock is one step. The logcat worker, which takes two locks in turn, is interleaved with
  everything else between them.
- C code that updates state in place is a class with arrays, loops and `modifies` clauses. Its methods are proved equal
  to functions on values, and the theorems over whole runs are about those functions.
- The Kconfig sizes are parameters. 32-bit, 16-bit and 8-bit arithmetic wraps where the C code wraps.

| File | What it holds |
|---|---|
| `Bytes.dfy`, `Text.dfy`, `Errno.dfy` | bytes, little-endian words, `memcpy`; components and hexadecimal digits of text; status codes |
| `Sudoku.dfy` | the iterative solver |
| `Framing.dfy`, `Receiver.dfy` | the ADB byte stream as an automaton; the receive loop that refines it |
| `Rings.dfy`, `LogBuffer.dfy` | circular buffers; the retained log and its listener |
| `Router.dfy`, `RouterProofs.dfy`, `RouterObject.dfy` | the stream router: functions, run theorems, the imperative form |
| `RouterAcks.dfy`, `RouterIds.dfy`, `RouterGenerations.dfy` | the stream router: acknowledgements and closes; local ids; generations |
| `RouterAnswers.dfy`, `RouterProgress.dfy` | the stream router: what it answers; that it gets on |
| `Usb.dfy`, `UsbProgress.dfy`, `UsbDevice.dfy` | the two-phase USB transmit queue: safety, progress, the imperative form |
| `Logcat.dfy`, `LogcatMachine.dfy`, `LogcatProgress.dfy` | the logcat context; all interleavings of worker, router, log and host: safety, progress |
| `SyncNames.dfy`, `SyncDisk.dfy` | upload: names; files and folders, renaming and removing |
| `Sync.dfy`, `SyncFeed.dfy` | upload: byte-wise functions, what stretches of input do |
| `SyncSafety.dfy`, `SyncTorn.dfy`, `SyncStreams.dfy` | upload: what every step keeps; when no file is torn; several streams side by side |
| `SyncTidy.dfy`, `SyncAnswers.dfy` | upload: what is put back and left behind; what other requests are answered |
| `SyncUpload.dfy`, `SyncObject.dfy` | upload: a whole upload, the imperative form |
| `Shell.dfy`, `ShellProofs.dfy` | the interactive shell: functions, which commands run |
| `ShellTranscript.dfy`, `ShellObject.dfy` | the interactive shell: what its user sees; the imperative form |
| `DevfsPath.dfy`, `DevfsTree.dfy`, `DevfsOps.dfy` | `/dev`: paths, the node tree, what each edit means for a plain map |
| `DevfsListing.dfy`, `Devfs.dfy` | `/dev`: directory cursors; the file system object |
| `Utf8.dfy`, `AppPaths.dfy`, `Json.dfy` | UTF-8, path grants, JSON strings |

## Model

| member | source | states |
|---|---|---|
| `Sudoku.CanPlace` | sampleapps/rust_sudoku/src/main.rs:140-164 | true exactly when no cell sharing a row, column or box holds the value |
| `Sudoku.NextCandidate` | sampleapps/rust_sudoku/src/main.rs:183-186 | the least digit from a start on that fits, all smaller ones ruled out, or 10 |
| `Sudoku.GivensAdmissible` | sampleapps/rust_sudoku/src/main.rs:167-172 | true exactly when all givens are digits and no two clash |
| `Sudoku.PreviousOpen` | sampleapps/rust_sudoku/src/main.rs:195-203 | the last cell before an index that is not a given, or none |
| `Sudoku.Solve` | sampleapps/rust_sudoku/src/main.rs:166-206 | terminates; succeeds exactly when a completion exists; then the grid is the lexicographically first one; otherwise the grid is restored |
| `Sudoku.RankIsLexicographic` | sampleapps/rust_sudoku/src/main.rs:174-205 | the base-11 termination measure orders search states lexicographically |
| `Sudoku.LeftFalls` | sampleapps/rust_sudoku/src/main.rs:174-205 | a step that raises one entry lowers the measure, whatever happens behind that entry |
| `Sudoku.SkipClashing` | sampleapps/rust_sudoku/src/main.rs:183-186 | raising a cell past clashing digits loses no completion |
| `Sudoku.Backtrack` | sampleapps/rust_sudoku/src/main.rs:194-203 | when nine digits are ruled out, moving the previous open cell on loses no completion |
| `Framing.ComputeChecksum` | lib/adb/adb_protocol.c:91-98 | the wrapping loop computes the byte sum modulo 2^32 |
| `Framing.ChecksumAppend` | lib/adb/adb_protocol.c:607-613 | the checksum may be accumulated piece by piece |
| `Framing.FeedRestOfHeader` | lib/adb/adb_protocol.c:580-604 | copying a stretch of header equals feeding it byte by byte |
| `Framing.FeedRestOfPayload` | lib/adb/adb_protocol.c:606-622 | copying a stretch of payload equals feeding it byte by byte |
| `Framing.ChunkingIrrelevant` | lib/adb/adb_protocol.c:573-624 | where the stream is cut makes no difference while nothing fails |
| `Framing.RoundTrip` | lib/adb/adb_protocol.c:538-624 | encoded messages, concatenated and cut anywhere, are dispatched as exactly that list in order with nothing left over |
| `Framing.NothingInvented` | lib/adb/adb_protocol.c:495-624 | in a run without error every byte belongs to a dispatched message with an accepted checksum or to the one still incomplete |
| `Framing.MessageOutcome` | lib/adb/adb_protocol.c:495-622 | any message, from a receiver between messages: handed over exactly when its length, memory and byte sum are right, a CNXN of version 0x01000001 or later may send 0 for the sum; otherwise refused with the reason and never handed over |
| `Framing.BrokenSeal` | lib/adb/adb_protocol.c:353-356 | a header whose last word is not the complement of its first is refused and nothing behind it is looked at |
| `Receiver.Receiver.ResetRx` | lib/adb/adb_protocol.c:100-113 | the receive state is empty again, what was dispatched stays |
| `Receiver.Receiver.DispatchMessage` | lib/adb/adb_protocol.c:495-502 | refines the automaton's dispatch: checksum rule, then the services, then reset |
| `Receiver.Receiver.DecodeHeader` | lib/adb/adb_protocol.c:538-554 | refines the automaton on a complete header: validation, allocation, dispatch of an empty payload |
| `Receiver.Receiver.Receive` | lib/adb/adb_protocol.c:573-624 | one receive call equals the byte automaton on the chunk; every pass consumes input |
| `Rings.ByteRing.Push` | app/src/services/log_buffer/log_buffer.c:48-67 | contents become the last capacity bytes of old contents and input |
| `Rings.ByteRing.Append` | app/src/services/log_buffer/log_buffer.c:61-67 | the two-piece copy appends |
| `Rings.ByteRing.Snapshot` | app/src/services/log_buffer/log_buffer.c:21-36 | the oldest bytes, leaving room for a terminator |
| `Rings.ByteRing.Take` | lib/adb/adb_logcat.c:134-147 | chunk and remaining contents together are the old contents |
| `Rings.LastNAppend` | app/src/services/log_buffer/log_buffer.c:48-67 | keeping the last n bytes may be done put by put |
| `LogBuffer.LogBuffer.Put` | app/src/services/log_buffer/log_buffer.c:38-75 | the ring holds the last capacity bytes put since the last clear; the listener is called with the message, cut to the capacity |
| `LogBuffer.LogBuffer.SnapshotAndSetListener` | app/src/services/log_buffer/log_buffer.c:110-127 | error cases; on success a prefix of the retained log, all of it when it is shorter than the destination |
| `LogBuffer.LogBuffer.SetListener` | app/src/services/log_buffer/log_buffer.c:93-108 | EINVAL, EBUSY or registered |
| `LogBuffer.LogBuffer.ClearListener` | app/src/services/log_buffer/log_buffer.c:129-136 | only the registered listener is removed |
| `LogBuffer.LogBuffer.Read` | app/src/services/log_buffer/log_buffer.c:77-84 | a prefix of the retained log of exactly the length that fits |
| `LogBuffer.LogBuffer.Clear` | app/src/services/log_buffer/log_buffer.c:86-91 | the retained log is empty |
| `RouterAcks.StopAndWait` | lib/adb/adb_protocol.c:245-297 | over every run with no failing write callback: on every stream WRTEs sent minus acknowledgements is the awaiting flag, and payloads taken are payloads sent and then the slot |
| `RouterAcks.StopAndWaitExactly` | lib/adb/adb_protocol.c:456-462 | over every run: acknowledgements are accounted for throughout if and only if no failing write callback finds its stream awaiting one while its CLSE can be neither sent nor queued; payloads, with a full slot, likewise |
| `RouterAcks.FailingWriteDoes` | lib/adb/adb_protocol.c:448-462 | a failing write callback frees its stream, or leaves it with slot and flag cleared when CLSE can be neither sent nor queued |
| `RouterAcks.CloseInWriteReleases` | lib/adb/adb_protocol.c:448-469 | a close asked for inside a write callback of an idle stream releases the stream before the message is done |
| `RouterAcks.CloseOnAckReleases` | lib/adb/adb_protocol.c:471-482 | a close asked for while a WRTE is out releases the stream with its acknowledgement |
| `RouterProofs.SlotFits` | lib/adb/adb_protocol.c:270-297 | over every run: a slot is empty while an acknowledgement is awaited and fits the negotiated limit |
| `RouterProofs.CloseWaits` | lib/adb/adb_protocol.c:260-267 | over every run: flush_stream closes a stream only with an empty slot and nothing unacknowledged |
| `RouterProofs.ControlsInOrder` | lib/adb/adb_protocol.c:127-175 | over every run: all packets accepted, WRTEs included, are those sent and then the ring, in order, so a WRTE goes out only when no control packet waits; the ring holds no WRTE; every WRTE follows an OKAY with the same ids |
| `RouterIds.IdsAreFresh` | lib/adb/adb_protocol.c:190-224 | over every run, as long as at most 2^32 - 1 local ids were given out since the last connection: live streams have different ids, and the next id is in no live stream and no packet of a stream since then, so the OKAY before a WRTE is that of its stream |
| `RouterGenerations.HandleIsExact` | lib/adb/adb_protocol.c:208-329 | over every run, as long as fewer than 2^32 streams were allocated: a slot and generation once given out reach the stream with the same ids, or the call is refused and changes nothing |
| `RouterAnswers.AnswersExactly` | lib/adb/adb_protocol.c:363-493 | in every reachable state: any message but CNXN is answered with exactly the packet the protocol asks for (OKAY for a WRTE that was taken, CLSE for one to no stream or that failed, OKAY or CLSE for OPEN, CLSE for CLSE), unless it can be neither sent nor queued; behind it come only WRTEs within the limit and CLSEs |
| `RouterAnswers.OneOkayEach` | lib/adb/adb_protocol.c:448-469 | over every run, as long as the ids last: the OKAYs for a live stream are one for its OPEN and one for each WRTE it took |
| `RouterAnswers.ConnectAnswered` | lib/adb/adb_protocol.c:505-524 | a connection begins with CNXN, unless that can be neither sent nor queued; the payload limit is the host's or the configured one, whichever is less |
| `RouterAnswers.WithinTheOffer` | lib/adb/adb_protocol.c:270-297 | over every run: no WRTE is longer than the host offered at its last connection, or than the buffers |
| `RouterProgress.WritesExactly` | lib/adb/adb_protocol.c:270-297 | a service's write, outside a callback, succeeds exactly when the stream is live, of that generation and idle, the data fit and the transport does not fail outright; then it is the last payload taken, otherwise all is undone but for the bytes left in an empty slot |
| `RouterProgress.ReadyFlushesAll` | lib/adb/adb_protocol.c:626-644 | in every reachable state: once the transport takes packets again, ring and slots are empty and no close is pending but behind an acknowledgement |
| `RouterProgress.NothingIsLeft` | lib/adb/adb_protocol.c:245-493 | over every run with a transport that takes every packet: at the end of every event no packet, payload or close waits for it |
| `RouterProofs.DeliversAll` | lib/adb/adb_protocol.c:245-297 | with a willing transport and acknowledgements any payloads go out one WRTE each, complete and in order |
| `RouterProofs.PumpDrains` | lib/adb/adb_protocol.c:163-175 | a willing transport gets the whole control ring in order |
| `RouterProofs.FailingWriteBreaksStopAndWait` | lib/adb/adb_protocol.c:456-462 | a concrete run in which a failing write callback leaves two unacknowledged WRTEs on one stream |
| `RouterProofs.StepKeeps` | lib/adb/adb_protocol.c:363-535 | every event keeps the router invariant |
| `RouterObject.RouterObject.EnqueueControl` | lib/adb/adb_protocol.c:127-148 | refines the function: too large, ring full, or appended to the circular queue |
| `RouterObject.RouterObject.SendControlPacket` | lib/adb/adb_protocol.c:150-161 | refines the function: sent at once, or queued when held back |
| `RouterObject.RouterObject.PumpControls` | lib/adb/adb_protocol.c:163-175 | the loop refines the recursive pump |
| `RouterObject.RouterObject.AllocateStream` | lib/adb/adb_protocol.c:208-224 | refines the function: first free slot, fresh ids and generation |
| `RouterObject.RouterObject.FlushStream` | lib/adb/adb_protocol.c:245-268 | refines the function: the slot first, then a deferred close |
| `RouterObject.RouterObject.StreamWrite` | lib/adb/adb_protocol.c:270-297 | refines the function: all refusals, the copy, the flush and its undoing |
| `RouterObject.RouterObject.StreamClose` | lib/adb/adb_protocol.c:322-329 | refines the function |
| `RouterObject.RouterObject.OpenStream` | lib/adb/adb_protocol.c:363-393 | refines the function: a refused open releases the slot, an accepted one is announced |
| `RouterObject.RouterObject.OnWrite` | lib/adb/adb_protocol.c:448-469 | refines the function, including a failing callback |
| `RouterObject.RouterObject.OnReady` | lib/adb/adb_protocol.c:471-482 | refines the function |
| `RouterObject.RouterObject.OnClose` | lib/adb/adb_protocol.c:484-493 | refines the function |
| `RouterObject.RouterObject.OnConnect` | lib/adb/adb_protocol.c:505-524 | refines the function: everything is reset and the payload negotiated |
| `RouterObject.RouterObject.OnTransportReady` | lib/adb/adb_protocol.c:626-644 | refines the function: controls, then every stream |
| `RouterObject.RouterObject.ResetProtocol` | lib/adb/adb_protocol.c:561-571 | refines the function: all streams released, ring empty, ids and payload limit as at the start |
| `UsbTx.TransfersInOrder` | lib/adb/transports/adb_usb.c:156-320 | over every run: IN transfers issued are a prefix of header-then-payload of the accepted packets, all of it once the queue is empty; queue, phase and active buffer agree, and while the interface is enabled so does the engaged bit |
| `UsbTx.StaleCompletionIgnored` | lib/adb/transports/adb_usb.c:276-282 | the completion of a buffer that was active at a reset only gives it back to the pool, whatever was sent meanwhile with whichever other buffers |
| `UsbTx.SendKeeps` | lib/adb/transports/adb_usb.c:218-265 | a packet is accepted exactly when the call succeeds and a refused one leaves no trace |
| `UsbTx.CompleteKeeps` | lib/adb/transports/adb_usb.c:276-320 | a completion keeps the transmit invariant |
| `UsbProgress.SendsExactly` | lib/adb/transports/adb_usb.c:218-265 | in every reachable state: a packet is refused exactly for one of five reasons, and then nothing has changed; an accepted one is last in the queue, with its header on its way if it is the only one |
| `UsbProgress.CompletesExactly` | lib/adb/transports/adb_usb.c:276-320 | in every reachable state: a completion issues exactly the next transfer and drops nothing; the queue is dropped and senders held off if and only if it reports an error or the next transfer gets no buffer |
| `UsbProgress.Drains` | lib/adb/transports/adb_usb.c:276-320 | from every reachable state completions alone, each with a free buffer for the next transfer, issue every packet accepted and drop none |
| `UsbDevice.UsbDevice.SendPacket` | lib/adb/transports/adb_usb.c:218-265 | refines the function |
| `UsbDevice.UsbDevice.StartTxPacket` | lib/adb/transports/adb_usb.c:200-216 | refines the function |
| `UsbDevice.UsbDevice.RequestIn` | lib/adb/transports/adb_usb.c:276-320 | refines the function |
| `UsbDevice.UsbDevice.ResetTxQueue` | lib/adb/transports/adb_usb.c:175-182 | refines the function |
| `LogcatContext.LogcatObject.PrepareNext` | lib/adb/adb_logcat.c:116-148 | refines the first locked section of the worker |
| `LogcatContext.LogcatObject.LiveLogListener` | lib/adb/adb_logcat.c:105-114 | refines the function: drop-oldest push while a session follows the log |
| `LogcatContext.LogcatObject.WriteRefused` | lib/adb/adb_logcat.c:154-169 | only the session that prepared the chunk takes its flag back |
| `LogcatContext.LogcatObject.TxReadySection` | lib/adb/adb_logcat.c:236-248 | only an acknowledgement of the current stream frees the flag |
| `LogcatContext.LogcatObject.Open` | lib/adb/adb_logcat.c:188-226 | EBUSY, ENOMEM or success; a following session becomes the listener of the log, or stays inactive if there is one; a new session starts with the excerpt of the retained log and nothing else |
| `LogcatContext.LogcatObject.Close` | lib/adb/adb_logcat.c:250-262 | no session, empty ring, and its listener, no other one, is removed |
| `LogcatMachine.SessionsAreIsolated` | lib/adb/adb_logcat.c:116-262 | in every interleaving: what a stream gets was prepared for its own session, unchanged, once, in order; a current chunk is never refused |
| `LogcatMachine.ExactlyOnce` | lib/adb/adb_logcat.c:79-223 | in every interleaving: snapshot and live bytes are delivered, in flight or in the ring, each once and in order, unless bytes were lost; the retained log is the last bytes put |
| `LogcatMachine.HostWriteKeeps` | lib/adb/adb_protocol.c:456-462 | data the host writes to a logcat stream, which the service refuses, keeps the invariant whether or not the stream can be hung up |
| `LogcatMachine.SnapshotComplete` | app/src/services/log_buffer/log_buffer.c:28-35 | the snapshot is complete exactly when the log is shorter than the destination or empty |
| `LogcatMachine.StepKeeps` | lib/adb/adb_logcat.c:116-262 | every step of every thread keeps the invariant |
| `LogcatProgress.SendingIsOwned` | lib/adb/adb_logcat.c:116-248 | in every interleaving: the sending flag of an active session always has an owner, a thread, the slot or the peer, if and only if no chunk was prepared under a payload of 0 and no host write found a chunk on its way that it could not hang up on |
| `LogcatProgress.SessionFinishes` | lib/adb/adb_logcat.c:116-248 | from the end of every such interleaving, with a positive payload limit, ordinary steps of threads, transport and peer deliver the whole log of the session, once and in order unless bytes were lost, and a draining session has its close pending |
| `LogcatProgress.OpenFinishes` | lib/adb/adb_logcat.c:176-228 | a session opened in any state that keeps the invariants, with a positive payload limit, gets the retained log as far as the ring takes it, or nothing when clearing; then a clearing or dumping one has its close pending and any other one listens |
| `SyncNames.PathAllowed` | lib/adb/adb_sync.c:75-95 | the scan decides the declared set of destinations |
| `SyncNames.AllowedMeans` | lib/adb/adb_sync.c:75-95 | allowed exactly when below the root, short enough, no side name and all components proper; only the first may be empty |
| `SyncNames.SideNamesDiffer` | lib/adb/adb_sync.c:175-195 | side names differ per path, per token and per purpose |
| `SyncNames.SideNamesFit` | lib/adb/adb_sync.c:182-189 | side names always fit their buffers |
| `SyncNames.SideNamesNotAllowed` | lib/adb/adb_sync.c:79-80 | no side name is an allowed destination |
| `SyncTorn.NeverTorn` | lib/adb/adb_sync.c:137-473 | in every run, whatever fails: after each file operation each destination holds what the last upload installed there left, or what it held at first, or has exactly that at a backup name, and is absent only if there was none, if and only if no upload ends while a folder with destinations below it is found and moved aside at its destination; in any case every OKAY stands for an installed upload and nothing outside the root changes |
| `SyncTorn.FolderExample` | lib/adb/adb_sync.c:231-263 | a concrete folder that the lookup of the request misses: the upload is answered with OKAY and the file in the folder is gone without a backup of its own |
| `SyncStreams.NeverTornTogether` | lib/adb/adb_sync.c:62-473 | the same for any number of streams side by side, as long as fewer than 2^32 tokens were issued; the staging file of each unfinished upload, while it is there, has exactly that upload's data |
| `SyncStreams.PoolStepKeeps` | lib/adb/adb_sync.c:173-195 | a packet or a close on one stream puts no data into the staging files of the others, and uploads in progress have different tokens |
| `SyncTorn.InstallIsSafe` | lib/adb/adb_sync.c:250-296 | from any staged upload, after each operation of its install: the old contents at the destination, or all the new ones, or the old ones at this upload's backup name, or nothing where nothing was; no name but the destination, its staging file and those within the backup name is touched if and only if no folder with something in it is moved aside |
| `SyncTorn.OkayMeansInstalled` | lib/adb/adb_sync.c:283-296 | OKAY is sent only when the destination holds all the data received; a FAIL leaves what is held as it was |
| `SyncTidy.RefusedExactly` | lib/adb/adb_sync.c:250-296 | an install that is refused, from any staged upload: in the end the destination and every name but the upload's side names are as they were, if and only if the destination was not moved aside or moving it back works |
| `SyncTidy.RefusedRestores` | lib/adb/adb_sync.c:250-296 | if every operation behind the refusing one works: the destination is as it was, nothing new is at the backup name, the staging file is gone and FAIL is sent |
| `SyncTidy.NoDebris` | lib/adb/adb_sync.c:137-473 | in every run whose file operations work, whichever writes and replies fail: the only new side file is the staging file of the upload in progress, and closing removes it |
| `SyncDisk.MovedBack` | lib/adb/adb_sync.c:261-272 | moving a destination back, a folder with all its contents included, restores every name that is not within the backup name |
| `SyncSafety.StepKeeps` | lib/adb/adb_sync.c:298-460 | every byte in every state keeps the session invariant: counters, flags, staging file equal to the data received; and all destinations whole unless it ends an upload at a folder with destinations below it |
| `SyncSafety.ReplaceKeeps` | lib/adb/adb_sync.c:250-281 | replacing the destination keeps every destination whole after each of its operations, unless it moves a folder aside with a destination below it |
| `SyncUpload.UploadInstalls` | lib/adb/adb_sync.c:197-460 | SEND, DATA records and DONE in any packets: if all data can be written, the destination equals the concatenated records, all else is as it was, no side file is left and OKAY is sent; otherwise every file is as it was and FAIL is sent; either way the service is ready again |
| `SyncAnswers.StatAnswered` | lib/adb/adb_sync.c:116-135 | STAT in any packets: the reply tells file, folder or neither and the length of a file as far as 32 bits go; nothing changes |
| `SyncAnswers.FaultMeans` | lib/adb/adb_sync.c:197-228 | a SEND request is found faulty exactly when it is not an allowed path, a comma and a regular mode |
| `SyncAnswers.UploadRefused` | lib/adb/adb_sync.c:197-460 | an upload with a faulty request in any packets: FAIL with the reason, its data read and forgotten, no file touched, the service ready again |
| `SyncAnswers.QuitCloses` | lib/adb/adb_sync.c:304-307 | QUIT closes the stream and does nothing else |
| `SyncAnswers.UnknownRefused` | lib/adb/adb_sync.c:308-321 | any other request, or one of a wrong size: FAIL, the stream closed, everything behind it ignored |
| `SyncAnswers.BadRecordRefused` | lib/adb/adb_sync.c:337-349 | a record that is no DATA or DONE, or too long: FAIL, the staging file removed, the stream closed, everything behind it ignored |
| `SyncUpload.ChooseFinds` | lib/adb/adb_sync.c:175-195 | free staging names are found whenever one of the next 32 tokens has them |
| `SyncFeed.PacketsIrrelevant` | lib/adb/adb_sync.c:373-460 | where the input is cut into packets does not matter while nothing fails |
| `SyncFeed.FeedDataThen` | lib/adb/adb_sync.c:420-442 | writing a slice, or failing in it, equals the byte-wise automaton, also when the failure cannot be reported |
| `SyncObject.SyncService.Write` | lib/adb/adb_sync.c:373-460 | the loop over slices equals the byte-wise automaton and keeps its invariant; it makes progress on every pass |
| `SyncObject.SyncService.Process` | lib/adb/adb_sync.c:298-349 | refines the function |
| `SyncObject.SyncService.Start` | lib/adb/adb_sync.c:197-248 | refines the function, including the overwritten comma |
| `SyncObject.SyncService.ChooseNames` | lib/adb/adb_sync.c:175-195 | the loop of 32 attempts refines the recursive search |
| `SyncObject.SyncService.Close` | lib/adb/adb_sync.c:466-473 | partial files are cleaned up and the context is fresh |
| `SyncObject.StatPathAllowed` | lib/adb/adb_sync.c:97-114 | the scan decides the declared set of paths |
| `ShellProofs.OnlyTheBytesMatter` | lib/adb/adb_shell.c:253-441 | two runs with the same bytes, cut and acknowledged in any ways, before or after the end of the session, execute the same commands: those an editor finds in the bytes alone |
| `ShellProofs.Drains` | lib/adb/adb_shell.c:420-441 | acknowledgements alone bring every session to rest with all output sent, and released or with all input dealt with |
| `ShellProofs.ByteAlike` | lib/adb/adb_shell.c:299-380 | on each byte the session does what the editor does and pauses only with output to send or at the end |
| `ShellProofs.RunTracks` | lib/adb/adb_shell.c:392-441 | in every run input waits only while output is on its way or behind the end of the session, and a session that is done is released |
| `ShellProofs.OutputIsKept` | lib/adb/adb_shell.c:161-441 | in every run, whatever fails, output once buffered is sent or still buffered, complete and in order |
| `ShellTranscript.ShowsTheTranscript` | lib/adb/adb_shell.c:205-441 | in every run with room for each command, once no input waits: all output is the transcript of the typed bytes (prompt, echo, newline, the response of each command, prompt) with pieces cut at most, and exactly the transcript if it all fits |
| `ShellTranscript.LineOutput` | lib/adb/adb_shell.c:264-297 | the response of a line is cut exactly so that the prompt still fits behind it, and nothing else is cut |
| `ShellTranscript.ChunksAlwaysFit` | lib/adb/adb_shell.c:161-182 | in every run with a positive payload limit, whatever fails: each chunk has at least one byte and at most a payload |
| `ShellTranscript.NothingStalls` | lib/adb/adb_shell.c:161-441 | in every run of a session that opened, whatever is refused later: output that waits is on its way or a close was asked for, and a close with nothing on its way was tried |
| `ShellTranscript.OverflowHangsUp` | lib/adb/adb_shell.c:392-418 | a packet that does not fit the input buffer is refused as a whole and the stream hung up on |
| `ShellProofs.LatePacketsRun` | lib/adb/adb_shell.c:345-351 | any printable line that fits, behind the end of input: executed exactly when it comes in a packet of its own and the transport could not take the CLSE in between |
| `ShellProofs.EchoCrowdsOutLine` | lib/adb/adb_shell.c:282-285 | with a small output buffer a line typed at once is skipped and typed in two packets it runs |
| `ShellObject.ShellSession.ProcessInput` | lib/adb/adb_shell.c:299-390 | the loop with its in-place buffers equals the function |
| `ShellObject.ShellSession.RunLine` | lib/adb/adb_shell.c:264-297 | refines the function |
| `ShellObject.ShellSession.QueueChunk` | lib/adb/adb_shell.c:161-182 | refines the function: the chunk sent is cut from the front of the output |
| `ShellObject.ShellSession.Receive` | lib/adb/adb_shell.c:392-418 | refines the function, including input that does not fit |
| `ShellObject.ShellSession.Acknowledged` | lib/adb/adb_shell.c:420-441 | refines the function; a close is asked for exactly when the next chunk is refused |
| `DevfsPath.ValidatePath` | lib/devfs/devfs.c:65-98 | the loop refines the recursive split |
| `DevfsPath.ParseExact` | lib/devfs/devfs.c:53-98 | a text is accepted exactly when it renders a path of proper components, short enough, with a trailing slash only where allowed |
| `DevfsPath.CompareDecides` | lib/devfs/devfs.c:100-115 | the strncmp test decides equality and order of names |
| `DevfsTree.WalkExact` | lib/devfs/devfs.c:161-186 | lookup finds a node exactly when that node has that path |
| `DevfsTree.DirsAreImplied` | lib/devfs/devfs.c:150-159 | the tree has exactly the directories the map implies: the root, above a file, at or above an open directory |
| `DevfsTree.FilesAreListed` | lib/devfs/devfs.c:382-461 | the tree has exactly the files of the map with their open counts |
| `DevfsTree.PruneRestores` | lib/devfs/devfs.c:150-159 | pruning leaves no directory without a reason and loses no file and no open directory |
| `DevfsTree.FileOpened` | lib/devfs/devfs.c:205-206 | counts equal live handles after an open if and only if the 16-bit counter did not wrap |
| `DevfsOps.WalkAchieves` | lib/devfs/devfs.c:397-437 | from every point of the walk: success adds the file, any failure is undone by pruning, and the status is the map's |
| `DevfsOps.ReachedMeans` | lib/devfs/devfs.c:161-186 | lookup in the tree is lookup in the map |
| `Devfs.Devfs.FindChild` | lib/devfs/devfs.c:100-115 | the search that stops early finds what a full search finds |
| `Devfs.Devfs.InsertChild` | lib/devfs/devfs.c:132-143 | the new child is put before the first greater name |
| `Devfs.Devfs.PruneEmptyDirs` | lib/devfs/devfs.c:150-159 | the loop refines the recursive pruning |
| `Devfs.Devfs.FindNode` | lib/devfs/devfs.c:161-186 | the node found is the one the map means |
| `Devfs.Devfs.RegisterFile` | lib/devfs/devfs.c:382-437 | the map gains exactly the file; each refusal has the map's reason; out of memory only where the map would have allowed it and an allocation failed; any failure leaves the tree unchanged |
| `Devfs.Devfs.UnregisterFile` | lib/devfs/devfs.c:439-461 | the map loses exactly the file, or the status says why not and nothing changes |
| `Devfs.Devfs.OpenFile` | lib/devfs/devfs.c:188-212 | the first locked section: a fresh handle is counted, and all invariants hold afterwards if and only if the count was below 65535; any refusal leaves everything as it was |
| `Devfs.Devfs.FinishOpen` | lib/devfs/devfs.c:214-229 | after the device has answered: nothing changes, or, when it refuses, the handle is gone and the count is one less than it is by then |
| `DevfsOps.CountUndone` | lib/devfs/devfs.c:205-221 | an open that is refused with nothing in between leaves everything as it was, also across the wrap of the counter |
| `Devfs.Devfs.ReleaseFile` | lib/devfs/devfs.c:255-269 | the handle is gone and its file's count is one less |
| `Devfs.Devfs.OpenDir` | lib/devfs/devfs.c:285-316 | as for files, for directories |
| `Devfs.Devfs.CloseDir` | lib/devfs/devfs.c:343-353 | the handle is gone, the count is one less, directories kept only by it are gone |
| `Devfs.Devfs.ReadDir` | lib/devfs/devfs.c:318-341 | the first name behind the cursor with its kind, or the end marker; the cursor moves there |
| `DevfsListing.ListingIncreases` | lib/devfs/devfs.c:318-341 | whatever changes between calls, names come in strictly increasing order |
| `DevfsListing.ListedExactlyOnce` | lib/devfs/devfs.c:318-341 | a child present throughout is returned exactly once before the end marker and never after |
| `DevfsListing.QuietListing` | lib/devfs/devfs.c:318-341 | without changes the calls return all children in order, then the end marker |
| `Utf8.ValidUtf8` | app/src/services/app/app_context.c:22-54 | the loops refine the recursive check |
| `Utf8.AcceptsExactlyUtf8` | app/src/services/app/app_context.c:22-54 | accepted exactly when a concatenation of encodings of Unicode scalar values |
| `AppPaths.ValidPath` | app/src/services/app/app_context.c:56-68 | the scan decides the declared set of paths |
| `AppPaths.WellFormedMeans` | app/src/services/app/app_context.c:56-68 | well formed exactly when absolute, short, UTF-8, without empty, `..` or control-character components |
| `AppPaths.BoundaryMeans` | app/src/services/app/app_context.c:17-20 | a boundary prefix is exactly a prefix of components; with a trailing slash a proper one |
| `AppPaths.AppPathAllowed` | app/src/services/app/app_context.c:81-88 | allowed exactly when well formed and under the root or one of the counted, non-null grants |
| `AppPaths.AcceptedStaysBelow` | app/src/services/app/app_context.c:56-88 | an accepted path has the components of its grant in front and no component that leads back up |
| `Json.AppendJsonString` | app/src/utils/json/json.c:84-138 | the buffer holds exactly the specified text, with or without terminator, and is otherwise unchanged; a byte is stored outside it exactly when it is empty |
| `Json.FillsAll` | app/src/utils/json/json.c:84-138 | a buffer that is large enough gets the whole escaped text, terminated |
| `Json.FillsPrefix` | app/src/utils/json/json.c:88-138 | any buffer gets the escape of a prefix; the terminator is missing exactly when the next escape does not fit and the last one written was not a numeric one |
| `Json.UnterminatedExample` | app/src/utils/json/json.c:92-94 | a concrete unterminated result |
| `Json.TerminatedExample` | app/src/utils/json/json.c:120-130 | a quote that does not fit behind a numeric escape leaves the buffer terminated |
| `Json.EscapedIsBody` | app/src/utils/json/json.c:84-138 | escaped text is always the inside of a JSON string: no bare quote or control character |
| `Json.JsonGetString` | app/src/utils/json/json.c:20-82 | status and stored text are those of the specification, for every buffer size and malformed input; a byte is stored outside the buffer exactly when it is empty and the value is too |
| `Json.EmptyBufferExample` | app/src/utils/json/json.c:80 | reading an empty value into an empty buffer succeeds |
| `Json.ReadsBack` | app/src/utils/json/json.c:20-138 | reading behind a first-occurring key gives back the escaped string if and only if its only control characters are newline, return and tab |
| `Json.NotRestoredExample` | app/src/utils/json/json.c:67-69 | a concrete control character that is not restored |

## Left out

- Wi-Fi, HTTP server and client, SSH, OTA, WAMR, GPIO, LED and sensor code: input, output and calls into libraries.
- USB descriptors, serial number, stack registration and enable messages: setup only. The OUT half of the USB class hands its bytes to the receiver.
- `parse_puzzle` and its helpers in the Sudoku sample, `json_has_key`, `valid_component`, URL grants: would only add easy members.
- Shell allowlists (`safe_path`, `command_allowed`) and one-shot `shell:<command>` streams: read-only predicates and a single buffer drained once.
- Logcat option matching (`contains_bytes`, `drain_requested`, `clear_requested`): the options arrive as booleans.
- Zephyr mutexes, work queues, the shell backend and FatFS: atomic steps and abstract results. File names are exact byte strings. Renaming a folder takes along what is below it, and a folder is removed only when nothing is. A failing file operation other than a write leaves the disk as it was; a failing write stores a prefix.
- Callback pointers stored in devfs nodes, and devfs read, write, seek and stat: calls into the device or one lookup.
- LogcatMachine.SessionsAreIsolated: assumes one logcat stream at a time and fewer than 2^32 - 1 stream allocations. `adb_logcat_close` does not look at which stream closes, so a refused second open would end the first session, and the generation counter would repeat.
- LogcatMachine.ExactlyOnce: a record put and its notification are one step; a notification that comes late counts as lost, and so does a chunk that a write from the host drops from the slot. The log has no other listener when a session opens; LogcatContext.LogcatObject.Open covers that case.
- Framing.RoundTrip: assumes that allocation and dispatch succeed, since a failing dispatch drops the rest of the chunk.
- RouterProofs.DeliversAll: payloads must fit the negotiated limit; a host that negotiates 0 gets empty payloads only.
- SyncUpload.UploadInstalls: assumes that file operations succeed, the reply slot is free, staging names are free among the next 32 tokens and the destination is no folder; NeverTorn, InstallIsSafe and RefusedExactly cover everything else. A folder has size 0 in the reply to STAT.
- SyncStreams.NeverTornTogether: stops at 2^32 tokens, where the counter wraps around; a token could then be chosen twice if the lookup of its names failed. One call of the router into the service is one step. A staging file goes with its folder when another stream's install moves that folder aside; what is written to it after that shows at no name.
- ShellProofs.OnlyTheBytesMatter: assumes that packets fit the input buffer, the router takes every chunk and every CLSE, and each line leaves room for output. LatePacketsRun and EchoCrowdsOutLine show that the last two are needed; OverflowHangsUp and NothingStalls say what happens without the first two.
- ShellTranscript.ShowsTheTranscript: the same assumptions. Where output does not fit the buffer, which bytes of a piece are cut depends on what had been sent by then; LineOutput gives it for one line.
- SyncAnswers.StatAnswered: assumes a free reply slot and a path of at least one byte that fits the request buffer; other lengths are those of UnknownRefused.
- SyncAnswers.UploadRefused: assumes a free reply slot and records within the data limit; BadRecordRefused has the other records.
- SyncAnswers.UnknownRefused: assumes a free reply slot.
- SyncAnswers.BadRecordRefused: assumes that file operations succeed and the reply slot is free, and starts from an upload in progress whose data were all written.
- RouterAnswers.OneOkayEach: up to 2^32 - 1 ids given out; behind that, ids may repeat.
- RouterGenerations.HandleIsExact: up to 2^32 - 1 allocations; behind that, generations may repeat.
- RouterProgress.NothingIsLeft: services write to and close their own streams only; a payload put into another stream inside a callback waits for the transport to be ready.
- LogcatProgress.SessionFinishes: says that such steps exist, not that a scheduler takes them.
- Devfs.Devfs.FinishOpen: needs the counts to be right when the device answers, which OpenFile promises below 65535 open handles; CountUndone covers a wrap that is undone at once.
- The router's side of a shell stream is four fields beside the session; CloseInWriteReleases and CloseOnAckReleases prove of the router itself that it releases a stream in the two situations where those fields say so.
- Devfs.Devfs.ReadDir: the entry name is cut to the size of the caller's entry; the order theorems are about the full names.
- Nodes of the devfs tree are kept in a map from addresses to nodes instead of linked objects. A freed node is an address not in the map and addresses are not reused, so a dangling reference shows, but reuse of memory by the allocator does not.
- SyncObject.SyncService.Write: the stream context other than its two buffers is one record that is reassigned field by field; the text of replies is abstract.

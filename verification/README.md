# beeline: the chunk transfer engine, verified

A Dafny 4.11 model of how beeline moves a share from a host to a receiver: the
layout of files into chunks, the host's chunk reader with its hash cache and its
serve loop, the receiver's scheduler and verifier, the receiving store with its
sidecar, the frame codec that joins the two sides, and the limiter of failed
authentications. `dafny verify dfyconfig.toml` checks everything.

Code that changes state step by step is modelled twice and the two are proved
equal: as a class or method in the source's own form (files and buffers as
arrays, fields reassigned, the loops of the source), and as a function on values.
The properties are proved about the functions, so they hold of the methods.

| file | what it holds |
|---|---|
| Sums, Bytes, Bitmap, WindowFacts | counting, byte and integer encodings, digests, the bitmap |
| Wire, WireIO | the codec as functions and its laws; Encode, Read, Decode, SplitData as they run |
| Layouts, Store | layout and chunk arithmetic, file segments; gathering and scattering over files |
| Sinks, SinkFiles | the receiving store as a value; the store over files, bitmap and hash array |
| SourceFiles, Hosts, HostSessions | the chunk reader with its cache; serve as functions; serve as it runs |
| Receivers, AnyHosts, Losses, ReceiverRuns | the receiver as functions, with safety against any host; what single frames do; what a cut can lose; the receiver as it runs |
| Network, Invariant, Step*, Sessions | one session as two state machines and two bags of frames; its invariant |
| Theorems, Permanence, Termination | what the invariant gives: partition, progress, verified windows for good, an end to every run |
| Loops | the two state machines of Network are the loops of the two programs |
| Honest, Resume | sessions over an unchanged source; many sessions, each cut anywhere |
| AuthLimits | the limiter against the full history of failures |

**The two environments.** `Receivers.AnyHostSafe` and `ReceiverRun.Run` take an
arbitrary list of frames from the host. Everything in Network and after has a
host that runs `serve`: it answers each frame once, and the bytes it reads may be
different at every read. Either side may take any frame in transit to it, so a
stream in order and a data channel out of order are both covered, and other
sessions of the same share may fill the hash cache at any moment. The steps of that
network are the turns of the two loops themselves, `Handle` and `Serve`, and over
whole runs it reaches what `run` and `serve` reach with the frames each side took
(`PeerIsRun`, `HostIsServe`).

**Hashing.** SHA-256 is a constant of function type about which nothing is known
but its 32-byte output. Results read "the bytes are equal, or here are the two
inputs that collide".

**Main results.**

- Any frames at all: if a run succeeds under the source's root, the files are the
  source's or a collision is named, and no frame leads to an access out of range
  (`AnyHostSafe`, `AnyHostSameFiles`, `Run`).
- Frame by frame, from any host: which frames end a run and which do not, what moves
  a window, what is asked for next (`FaultsExactly`, `WindowLaw`, `RejectedFirst`).
- Any peer of the host: DONE is written if and only if it is due (`DoneExactly`), and
  nothing is served after a request out of range (`RefusalEnds`).
- However a session is cut, fewer than 64 recorded chunks are missing from the
  sidecar, which the next session takes up as it is (`CutLoses`, `Reopens`).
- Reachable states: queued, in-flight and held chunks partition all chunks,
  `outstanding` counts the in-flight ones, the window states mean what they say,
  and no byte is counted twice or lost (`ReachableInv`, `Partition`,
  `WindowMeaning`, `BytesConserved`). A window once verified is final: in no run
  is it rejected, or one of its chunks served or written, again (`VerifiedForGood`).
- Every session ends, whatever bytes DATA carries (`RunsEnd`); the only error a
  host that runs `serve` can cause is a chunk rejected four times (`StepKeeps`);
  over an unchanged source not even that (`RunKeepsHonest`).
- Crash-consistent resume over any series of sessions, each killed or suspended
  anywhere, also in the middle of a write (`ResumeConsistent`, `StaleRejected`,
  `ResumeOutcome`; `FreshOutcome` from an empty directory, in terms of files).

**Where the code falls short of what is said of it.**

- The README of the repository says that a download resumes from the sidecar. The
  host sends DONE only after a REQ that reaches the last chunk
  (internal/host/share.go:492-508), so a session that starts with the last chunk
  already held under the right hash verifies everything and then waits until it
  times out, every time. `Theorems.QuietOutcome`, `Termination.EndsWell` and
  `Resume.ResumeOutcome` give the exact condition: a session succeeds if and only
  if there is nothing to fetch, or the last chunk is not recorded, or it is
  recorded with a hash that is not the source's. `Resume.ResumeHangsExample` is a
  one-byte file that never completes.
- `Decode` is described as parsing exactly one frame from a message. It notices
  trailing bytes only if they are in the reader's 4096-byte buffer.
  `WireIO.DecodeAcceptsIff` gives the exact condition for every message, and
  `WireIO.DecodeTrailingByte` a message with a stray byte that is accepted.

## Model

| member | source | states |
|---|---|---|
| Wire.ParseEncoding | internal/wire/wire.go:75-185 | reading the encoding of a well-formed frame returns it and leaves the rest of the stream |
| Wire.EncodingOfParsed | internal/wire/wire.go:121-185 | a frame that was read is well formed and re-encodes to exactly the bytes consumed |
| Wire.RoundTripIff | internal/wire/wire.go:75-185 | a frame round-trips if and only if it is well formed, which is said in literal sizes |
| Wire.PrefixIsCut | internal/wire/wire.go:121-185 | no proper prefix of an encoding decodes; at its start it is the end of the stream, elsewhere an unexpected end |
| Wire.StreamRoundTrip | internal/wire/wire.go:121-185 | concatenated encodings read back as the list of frames, then a clean end |
| Wire.StreamUnique | internal/wire/wire.go:121-185 | a stream that reads to a clean end is exactly the encodings of the frames read |
| Wire.SplitCarries | internal/wire/wire.go:201-215 | fragments of a DATA frame, at whatever offset, are non-empty, consecutive, carry its bytes, and each encodes within the limit; without payload it is kept if it fits |
| Wire.SplitFull | internal/wire/wire.go:205-213 | every fragment but the last encodes to exactly the limit, so their number is the rounded-up quotient |
| Wire.FrameBytes | internal/wire/wire.go:75-118 | type bytes, and where each field stands, numbers least significant byte first |
| Wire.ErrorArrives | internal/wire/wire.go:104-115 | an ERROR frame with any message arrives with its first 4096 bytes |
| Wire.RefusedAtOnce | internal/wire/wire.go:139-177 | a header that announces too much, or an unknown type, is malformed before any body is read |
| WireIO.Encode | internal/wire/wire.go:75-118 | the buffer filled in place holds the encoding |
| WireIO.BufReader.ReadFrame | internal/wire/wire.go:121-185 | reads what Parse says, consumes exactly that, and leaves a known number of bytes buffered |
| WireIO.HeaderOnly | internal/wire/wire.go:127-177 | reading header and body in stages agrees with reading the frame at once |
| WireIO.Decode | internal/wire/wire.go:188-198 | the result for every message, long ones included |
| WireIO.DecodeAcceptsIff | internal/wire/wire.go:188-198 | a message is accepted iff it starts with a frame after which nothing follows, or whose length is 4096 or at least 8192 |
| WireIO.DecodeEncoding | internal/wire/wire.go:188-198 | a frame sent as a message decodes to itself, whatever its length |
| WireIO.DecodeSmallIff | internal/wire/wire.go:188-198 | messages of at most 4096 bytes are accepted iff they are the encoding of one well-formed frame |
| WireIO.DecodeTrailingByte | internal/wire/wire.go:187-198 | a frame of 8192 bytes followed by a stray byte is accepted |
| WireIO.SplitData | internal/wire/wire.go:201-215 | the loop yields the fragments of Wire.Split |
| Layouts.NewLayout | internal/manifest/layout.go:25-39 | accepts exactly the valid chunk sizes and entries of valid size and safe path; starts are prefix sums; the first bad file is named |
| Layouts.ChunkArithmetic | internal/manifest/layout.go:60-75 | the chunk count is the rounded-up quotient and ChunkSpan the offset and length used throughout |
| Layouts.SpansPartition | internal/manifest/layout.go:60-75 | chunks are non-empty, each starts where the last ended, the final one ends at the size |
| Layouts.ChunkOfByte | internal/manifest/layout.go:60-75 | every byte is in the chunk its offset divides to |
| Layouts.SpansDisjoint | internal/manifest/layout.go:60-75 | distinct chunks share no byte |
| Layouts.FileAt | internal/manifest/layout.go:83-91 | the binary search finds the file that holds the byte, never an empty one; past the end, the last file |
| Layouts.HoldsUnique | internal/manifest/layout.go:83-91 | only one file holds a byte |
| Layouts.Segments | internal/manifest/layout.go:100-119 | the pieces tile what of the range lies inside the layout, all of it for ranges within; all but the last run to the end of their file |
| Store.Scatter | internal/manifest/sink.go:169-175 | the write loop overwrites exactly the range of the concatenated files |
| Store.Gather | internal/manifest/source.go:128-138 | the read loop returns exactly the range of the concatenated files |
| Store.FlatSplice | internal/manifest/sink.go:169-175 | overwriting part of one file overwrites that part of the concatenation only |
| Store.CutSplice | internal/manifest/sink.go:164-175 | writing chunk i changes chunk i and no byte of another chunk |
| Store.CopiedChunks | internal/manifest/sink.go:164-190 | after any writes, written chunks have the source's bytes and the rest what they had |
| Store.CopyReproduces | internal/manifest/sink.go:164-190 | writing every chunk at least once, in any order with repeats, reproduces the source |
| Store.CopyReproducesFiles | internal/manifest/source.go:119-150 | ... and so every file, empty ones included |
| Store.ChunksDetermineFiles | internal/manifest/layout.go:68-119 | files of one layout with equal chunks are equal files |
| Sinks.SameFiles | internal/manifest/layout.go:68-119 | what is concluded about chunks, equal or a named collision, holds of whole files |
| Bitmap.SetOne | internal/manifest/sink.go:124 | setting a bit changes that chunk's bit only |
| Bitmap.ClearOne | internal/manifest/sink.go:125 | clearing a bit changes that chunk's bit only |
| Bitmap.PutDigest | internal/manifest/sink.go:178 | copying a hash into the flat array changes that chunk's hash only |
| Sinks.MissingExact | internal/manifest/sink.go:151-161 | Missing is the ascending list of exactly the chunks without a bit |
| Sinks.BadExact | internal/manifest/sink.go:194-213 | Verify returns exactly the held chunks of the range whose hash differs, ascending |
| Sinks.CountFull | internal/manifest/sink.go:216-220 | the count equals the number of chunks iff all bits are set |
| Sinks.CompleteIff | internal/manifest/sink.go:216-220 | Complete holds iff every chunk is recorded |
| Sinks.ReceivedBytesComplete | internal/manifest/sink.go:128-148 | received bytes are at most the size and reach it iff complete |
| Sinks.WriteCounts | internal/manifest/sink.go:179-182 | a write raises the count by one iff the chunk was missing |
| Sinks.VerifyCounts | internal/manifest/sink.go:206-210 | a verification lowers the count by the chunks it rejects |
| Sinks.RootDecides | internal/manifest/sink.go:223-227 | a complete sink that can be trusted and has the source's root has the source's bytes, or a collision is named |
| SinkFiles.OpenSink | internal/manifest/sink.go:39-79 | refused exactly when the destination exists and there is no usable sidecar; otherwise the sink of the constructor |
| SinkFiles.SinkFile.constructor | internal/manifest/sink.go:81-102 | memory is loaded from a sidecar of the same share, sizes and lengths, else empty; the count is the number of bits; then saved |
| SinkFiles.Reopens | internal/manifest/sink.go:81-102 | the sidecar a sink leaves is taken up, as it is, by a sink of the same share id, size and chunk size, and by no other |
| SinkFiles.SinkFile.SaveSidecar | internal/manifest/sink.go:105-121 | the sidecar holds the bitmap and hashes of the moment |
| SinkFiles.SinkFile.ReceivedBytes | internal/manifest/sink.go:128-148 | the loop sums the spans of the held chunks |
| SinkFiles.SinkFile.Missing | internal/manifest/sink.go:151-161 | the loop lists the chunks without a bit |
| SinkFiles.SinkFile.WriteChunk | internal/manifest/sink.go:164-190 | files, hash, bit, count and the flush every 64 writes; a wrong length is refused and changes nothing |
| SinkFiles.SinkFile.Verify | internal/manifest/sink.go:194-213 | rejected chunks are returned and lose their bit, nothing else changes |
| SinkFiles.SinkFile.Complete | internal/manifest/sink.go:216-220 | the counter decides completeness |
| SinkFiles.SinkFile.Root | internal/manifest/sink.go:223-227 | the hash over the flat array is the hash over the list of chunk hashes |
| SourceFiles.SourceFile.ReadChunk | internal/manifest/source.go:119-150 | the chunk's bytes, in the buffer given if it is large enough; its hash cached the first time only |
| SourceFiles.SourceFile.Hashes | internal/manifest/source.go:154-177 | the cached hashes of the range end to end; unknown chunks are read; a bad range changes nothing |
| SourceFiles.SourceFile.AllKnown | internal/manifest/source.go:180-184 | the counter says whether every chunk's hash is cached |
| SourceFiles.SourceFile.Root | internal/manifest/source.go:187-197 | the hash over all cached hashes, zeros for unknown ones; the root of the cache once all are known |
| Hosts.LearnRangeKnows | internal/manifest/source.go:142-148 | reading adds its chunks to the cache and never changes an entry |
| Hosts.ServeDone | internal/host/share.go:508-515 | a turn of serve keeps cached hashes; DONE is sent only with every hash known and the last chunk asked for, and counts one download |
| HostSessions.DoneAtMostOnce | internal/host/share.go:464-517 | whatever a peer sends, and whatever the source reads as at each turn, a session writes DONE at most once and counts a download exactly when it does |
| HostSessions.DoneWhenDue | internal/host/share.go:508-515 | after a turn of an open session in which DONE is due it has been written, once |
| HostSessions.DoneExactly | internal/host/share.go:464-517 | whatever a peer sends: an open session has written DONE iff every hash is known and the last chunk was asked for; one frame, with the root, one download |
| HostSessions.LastNoted | internal/host/share.go:492-494 | the last chunk is noted exactly when a frame taken asked for it |
| HostSessions.RefusalEnds | internal/host/share.go:472-500 | a range outside the share gives one ERROR frame, and nothing after it is served |
| HostSessions.OthersIgnored | internal/host/share.go:504-507 | frames that ask for nothing change nothing but that a due DONE follows |
| HostSessions.HostSession.Request | internal/host/share.go:472-494 | the range check, then one DATA a chunk with its bytes, the cache and lastRequested updated |
| HostSessions.HostSession.HashRequest | internal/host/share.go:495-503 | one HASH with the cached hashes, or an error that closes the session |
| HostSessions.HostSession.CheckDone | internal/host/share.go:508-515 | DONE with the root exactly when due |
| HostSessions.HostSession.ServeLoop | internal/host/share.go:464-517 | the loop over any frames reaches the state that serving them in turn reaches |
| Receivers.RunLengthBounds | internal/peer/peer.go:529-533 | the coalesced run is consecutive, within 64 outstanding, and as long as it can be |
| Receivers.HandleKeeps | internal/peer/peer.go:493-509 | any frame keeps the state formed and the records no less trustworthy |
| Receivers.StartFormed | internal/peer/peer.go:447-474 | run's setup gives a formed state and leaves the sink alone |
| Receivers.AnyHostSafe | internal/peer/peer.go:447-518 | for any frames: success under the source's root means the source's bytes or a named collision |
| Receivers.AnyHostSameFiles | internal/peer/peer.go:447-518 | ... in terms of files, from a sink whose recorded hashes match its files |
| AnyHosts.FaultsExactly | internal/peer/peer.go:493-510 | a frame ends the run exactly when it is DATA outside its chunk, HASH for no window, HASH that rejects a chunk a fourth time, or ERROR |
| AnyHosts.ErrorEnds | internal/peer/peer.go:504-506 | an ERROR frame ends a run that is going, with its code and message, the sink as it was |
| AnyHosts.RootIsLatest | internal/peer/peer.go:502-503 | the root checked is that of the latest DONE |
| AnyHosts.OthersIgnored | internal/peer/peer.go:493-506 | frames that are not for a receiver change nothing |
| AnyHosts.WindowLaw | internal/peer/peer.go:568-597 | for any frame: a window is asked about when DATA completes it, verified by a HASH for just it that agrees, pending again by one that does not; verified counts the second |
| AnyHosts.RejectedFirst | internal/peer/peer.go:598-608 | rejected chunks are asked for again before anything queued |
| Losses.WriteFlushes | internal/manifest/sink.go:183-188 | every 64th write saves all that memory records |
| Losses.AnyHostLoss | internal/manifest/sink.go:164-213 | for any frames: memory records at most 63 chunks more than the sidecar, never more than the writes since the last flush |
| ReceiverRuns.ReceiverRun.Fill | internal/peer/peer.go:527-541 | the nested loops send the REQ frames of the function Fill |
| ReceiverRuns.ReceiverRun.OnData | internal/peer/peer.go:543-574 | range errors, the buffer, and on the last byte the write, the counters and the hash request |
| ReceiverRuns.ReceiverRun.OnHash | internal/peer/peer.go:581-609 | range error; a verified window; or charges, the attempt limit and re-queueing in front |
| ReceiverRuns.ReceiverRun.Begin | internal/peer/peer.go:447-475 | missing chunks queued, complete windows asked about, an empty share asks for nothing |
| ReceiverRuns.ReceiverRun.Run | internal/peer/peer.go:447-518 | the exact final state and result for any frames; what the sidecar lacks stays below 64 chunks; success under the source's root means the source's chunks, and the source's files, or a named collision |
| StepFill.FillOneKeeps | internal/peer/peer.go:527-541 | one REQ keeps the invariant and the limit of 64 |
| StepFill.FillKeeps | internal/peer/peer.go:527-541 | after fill the queue is empty or exactly 64 chunks are outstanding |
| StepFill.FillCoalesces | internal/peer/peer.go:527-541 | the REQ ranges sent, expanded in order, followed by what stays queued, are the old queue |
| StepFill.FillMaximal | internal/peer/peer.go:527-541 | no REQ frame of a fill starts where the one before it ends: consecutive indexes are coalesced |
| StepComplete.DataStep | internal/peer/peer.go:543-574 | a DATA frame keeps the invariant; the only write is of a whole missing chunk, with the bytes it was served with |
| StepHash.ChargeEffect | internal/peer/peer.go:598-606 | each rejected chunk is charged one attempt, its window one chunk and the progress its bytes, or the first over the limit ends the run |
| StepHash.RejectCounts | internal/peer/peer.go:605 | a rejection takes from its window exactly the rejected chunks and nothing from others |
| StepPeer.HashStep | internal/peer/peer.go:581-609 | a HASH frame keeps the invariant or ends the run for a chunk already rejected three times |
| StepServe.DataFramesWeigh | internal/host/share.go:477-491 | a REQ is answered with exactly the bytes of its chunks, once each |
| StepServe.DataFramesCover | internal/host/share.go:477-491 | its fragments cover every byte of every chunk asked for |
| StepServe.DataFramesInOrder | internal/host/share.go:477-491 | chunks are sent in the order of the range, each from front to back |
| StepServe.HostStep | internal/host/share.go:464-517 | a turn of serve keeps the invariant |
| StepHost.MaybeDoneKeeps | internal/host/share.go:508-515 | after the check, DONE was sent if the last chunk was asked for and every window answered |
| Sessions.StartInv | internal/peer/peer.go:447-474 | every session starts in the invariant, from any sink and any cache |
| Sessions.StepKeeps | internal/peer/peer.go:477-510 | every step of anyone keeps it, or the run ends with the one error possible |
| Sessions.ReachableInv | internal/peer/peer.go:447-518 | so it holds in every reachable state |
| Loops.PeerIsRun | internal/peer/peer.go:447-518 | over any run the receiver is where run gets with the frames it took; what it wrote and the host did not take is in transit |
| Loops.HostIsServe | internal/host/share.go:464-517 | the same of the host and serve, while no other session reads the source |
| Theorems.Partition | internal/peer/peer.go:527-609 | queued, in flight and held are a partition of the chunks; outstanding is the number in flight, at most 64, and 64 while anything is queued |
| Theorems.AskedAtMostFourTimes | internal/peer/peer.go:598-602 | no chunk is asked for more than four times |
| Theorems.BytesConserved | internal/peer/peer.go:543-609 | progress is bytes on disk plus bytes in partial buffers, and the size once complete |
| Theorems.WindowMeaning | internal/peer/peer.go:566-597 | winRecv and winState mean what they say; a verified window has the host's hashes and nothing of it is in transit or queued |
| Permanence.StepLeaves | internal/peer/peer.go:543-609 | no step of anyone, not even one that ends the run, touches a verified window |
| Permanence.VerifiedForGood | internal/peer/peer.go:566-609 | in every run a verified window stays verified; its chunks keep their records and bytes and are never served or written again |
| Theorems.Reassembled | internal/peer/peer.go:552-567 | a chunk written this session is byte for byte what it was last served with, whatever the order of fragments |
| Theorems.FramesSurvive | internal/wire/wire.go:75-198 | every frame either side sends survives the codec, on a stream and as a message |
| Theorems.FinishedSucceeds | internal/peer/peer.go:514-524 | a finished run never has a root mismatch; all recorded hashes are the host's and progress is the size |
| Theorems.VerifiedDone | internal/host/share.go:492-515 | once the receiver has verified everything, DONE was sent iff the last chunk was fetched this session |
| Theorems.QuietOutcome | internal/peer/peer.go:477-524 | with nothing in transit all is verified, and the run is finished iff there was nothing to fetch or the last chunk was fetched |
| Termination.StepDescends | internal/peer/peer.go:477-510 | every step lowers one lexicographic measure |
| Termination.RunsEnd | internal/peer/peer.go:477-510 | there is no endless session |
| Termination.EndsWell | internal/peer/peer.go:477-518 | a session with no step left has succeeded, or lacks a DONE, and exactly when |
| Termination.FinishedNeedsLast | internal/host/share.go:492-508 | in any reachable state a finish means the last chunk was fetched |
| Honest.StepKeepsHonest | internal/peer/peer.go:543-609 | over an unchanged source no step faults and records stay trustworthy |
| Honest.RunKeepsHonest | internal/peer/peer.go:447-518 | ... nor does any run, in any order of frames |
| Honest.FinishedIdentical | internal/peer/peer.go:514-524 | a finished session has the source's bytes or names a collision |
| Honest.HonestRoot | internal/manifest/source.go:187-197 | the root in DONE is that of hashing the source directly |
| Resume.CutTrusted | internal/manifest/sink.go:164-190 | any cut, also in the middle of a write, leaves what deserves trust |
| Resume.CutLoses | internal/manifest/sink.go:105-121 | any cut leaves a sidecar the next session loads as it is; it lacks nothing after a suspension, else at most the writes since the last flush, at most 63 |
| Resume.ResumeConsistent | internal/manifest/sink.go:81-121 | over any series of cut sessions, a persisted bit with the source's hash is of a chunk whose bytes have it |
| Resume.StaleRejected | internal/manifest/sink.go:194-213 | a persisted bit is rejected by the host's hashes exactly when its recorded hash is not the source's; among them is every one whose hash is not that of the bytes on disk |
| Resume.ResumeOutcome | internal/peer/peer.go:447-518 | after any such past a session never faults, and where it ends it has succeeded with identical files, or waits for DONE, and exactly when |
| Resume.FreshOutcome | internal/peer/peer.go:447-518 | from a directory without a sidecar, through any cut sessions, a maximal session leaves the source's files or a named collision, exactly when the last chunk is fetched |
| Resume.NeverFinishes | internal/host/share.go:492-508 | a session opened with the last chunk recorded under the source's hash never finishes |
| Resume.ResumeHangsExample | internal/host/share.go:492-508 | a one-byte file fully received, whose resumption never finishes |
| AuthLimits.AuthLimiter.Fail | internal/transport/authlimit.go:42-64 | true exactly on the tenth failure of the host within the last minute since its last block or the last reset; lists stay below ten, the map at most 4097 |
| AuthLimits.AuthLimiter.Allow | internal/transport/authlimit.go:25-37 | refused exactly while some block in the full history is less than a minute old; a ban that is over is forgotten |
| AuthLimits.PruneKeeps | internal/transport/authlimit.go:50-55 | pruning early loses nothing a later look would count |
| AuthLimits.RecordLists | internal/transport/authlimit.go:50-57 | a recorded failure extends the pruned list as it extends the full history |
| AuthLimits.BlockBans | internal/transport/authlimit.go:58-62 | the stored ban is the latest the history gives |
| AuthLimits.BurstCounts | internal/transport/authlimit.go:42-64 | in a burst inside one window after quiet, the count compared is the number of failures so far |

## Left out

- QUIC, WebTransport, WebRTC, STUN, certificates, signaling, the HTTP API, the daemon, the CLI: foreign libraries and plumbing; of the transports only "frames arrive, in any order" is kept.
- Write and read errors of the connection or of files, the DONE timer, cancellation and revocation in the middle of a transfer: a run may stop at any step instead.
- Source files that shrink or fail while being read: reads are full; their bytes may change.
- Writes reach the disk in the order they are made and the rename of the sidecar is atomic; fsync is not modelled.
- JSON and base64 of the sidecar: it is modelled as the byte strings it encodes. Whether the destination exists is a parameter of `OpenSink`.
- File paths, directory walking: files are distinct and given by size; whether safePath accepts a path is a parameter. The same list of files is assumed on resume, as the sidecar does not record it.
- HostSessions.HostSession.Request: does not model a share that is stopped, or a read that fails, in the middle of a REQ, which end the session with an error frame; a session may end after any frame instead.
- HostSessions.HostSession.ServeLoop: files that change while the loop runs and errors of the connection are not modelled; `DoneAtMostOnce`, and everything in Network, takes bytes that may differ at every turn.
- 64-bit overflow of the total size: sizes are unbounded integers. Where 32 bits matter (frame fields) truncation is written out, and shown not to occur below 2^32 chunks.
- Short reads by the network under the buffered reader: it delivers what it is asked for while it has it, as the reader over a message does.
- Partial chunks are values in a map rather than shared records; the receiver is the only one to hold them.
- The text of error messages, the String method of frames, the Cancel, Auth and MANIFEST-ACK handshakes beyond their encoding.
- The download cap and the list of downloads: `completed` is only the event that DONE triggers.
- hostOf in the limiter: hosts are given as such. The clock does not go back.

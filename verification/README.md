# Verification of the split-HTTP tunnel

A Dafny model of the tunnel's session layer, its transport loops, the codecs stacked on them and the smaller
protocol cores around them. `dafny verify dfyconfig.toml` checks everything.

## What is modelled

**Download.** The server appends to a sliding replay window addressed by absolute offset; GET handlers copy from it,
die, and are replaced by handlers that resume at the offset the client asks for. `DownloadBuffers` holds the buffer as
a class that is proved, method by method, to be an unbounded log of which it keeps a suffix. `DownloadSystem` runs that
log with any number of handlers, lost responses, stray GETs and one client, cut at the lock-held regions.

**Upload.** The client cuts writes into numbered chunks and sends up to eight POSTs at a time; the session reassembles
them; one reader drains them with a leftover buffer, and may be switched to a stream pipe on the way. `Pipeline` is the
client's pipeline, `Sessions` the session and `splitConn` as classes, `UploadSystem` the whole direction over every
run, `UploadWakeup` the condition variable with the stream flag that is set outside the lock.

**Both ends.** `Client` is the conn of the client, whose Read is proved to be a client of `DownloadSystem`; `Handler` is
the loop of one GET handler over the real buffer, proved to be a handler of it.

**Session life.** `Emit` is `tryEmit` under concurrent handlers of many sessions, `SessionTable` the manager's table
with its sweep, cut where the sessions' own flags may change.

**Codecs.** `Streams` is about bytes that arrive in arbitrary pieces and about codes that mark their own ends;
`Padding`, `Framing`, `Addresses`, `Udp`, `Socks5` and `Sni` are such codes, with the source's reading and writing
loops proved against them. `Stack` puts middlewares of any number over the upload and the download system.

**Others.** `RateLimiter`, `Token` (over abstract cryptography) and `Throttle`.

Methods take what the environment decides as arguments: what other goroutines do while the method waits, how the
network cuts a stream, which writes fail, the clock, the random padding.

## What the proofs found

- The code keeps less than `2 * maxRate` requests in any window-long interval: the exact bound is `2 * maxRate - 1`,
  and a run reaches it (`RateLimiter.RateBoundExactly`).
- One notify token and one `Signal` per chunk are enough for exactly one waiter. With two waiting GET handlers, or two
  upload readers, a waiter can sleep on with its data there (`DownloadSystem.NoLostWakeupExactly`,
  `UploadWakeup.NoLostWakeupExactly`).
- The upload is prefix-safe exactly when the client's chunk size is at most the server's plus 1024; beyond that the
  server cuts chunks silently and what follows them is read as if nothing were missing (`UploadSystem.PrefixSafeExactly`).
- A switch to stream mode strands every packet byte that has been written and not yet read
  (`UploadSystem.SwitchLosesExactly`).
- A GET handler can be past `tryEmit` while its session has not been offered yet, because a POST handler won the
  compare-and-swap and has not sent (`Emit.GetPassesBeforeTheOffer`; the exact condition is
  `Emit.OfferedByFirstGetExactly`). A session dropped on a full accept queue is never offered again
  (`Emit.DroppedForGood`).
- `GetOrCreate` hands out a session that its conn has closed, until a sweep evicts it
  (`SessionTable.ClosedSessionHandedOut`, with the exact condition in `SessionTable.LookupIsOpenExactly`).
- A sweep can close and evict a session that has just connected: `MarkConnected` does not take the table's lock, and
  may come after the sweep's select (`SessionTable.ConnectedSessionEvicted`; `SessionTable.VisitExactly` says exactly
  when).
- Two branches of `compactLocked` never run, and the compaction in `Write` never drops a byte, since `Advance` has
  already compacted (`DownloadBuffers.DownloadBuffer.CompactLocked`, `DownloadBuffers.DownloadBuffer.Write`).
- The comment at `internal/middleware/middleware.go:15` has the order backwards: the last middleware is outermost.
- A host name that starts with a dotted quad is replaced by the quad; a name over 255 bytes does not survive its
  one-byte length (`Addresses.ConnectExactly`, `Addresses.QuadNameIsReplaced`).
- The token's time check also passes where the 64-bit difference wraps: at a distance of exactly 2^63 seconds, whose
  negation is itself (`Token.WrappedTimePasses`; the exact condition is `Token.TimelyWithWrap`).
- A short padded write reports its full length even when its frame was refused (`Padding.PaddingWriter.Write`).
- The throttle detector reports Throttled once per episode, so callbacks answered in order never raise the recommended
  number of connections beyond one doubling of the base (`Throttle.InOrderDoublesOnce`).

## Model

| member | source | states |
|---|---|---|
| DownloadBuffers.DownloadBuffer.Write | internal/session/download_buffer.go:61-86 | appends to the unbounded log and leaves a token, or refuses after Close; the compaction inside it drops nothing |
| DownloadBuffers.DownloadBuffer.Advance | internal/session/download_buffer.go:93-106 | raises the watermark to the clamped offset, never lowers it, and the window again reaches back to exactly the floor |
| DownloadBuffers.DownloadBuffer.CompactLocked | internal/session/download_buffer.go:110-139 | from any window that is a suffix of the log, cuts to exactly watermark minus maxRetain; two guards cannot fire |
| DownloadBuffers.DownloadBuffer.Close | internal/session/download_buffer.go:145-154 | marks the end, leaves a token and keeps every retained byte |
| DownloadBuffers.DownloadBuffer.ReadFrom | internal/session/download_buffer.go:166-185 | copies out exactly what the unbounded log holds at the offset, or the error that the offset deserves |
| DownloadBuffers.DownloadBuffer.Len | internal/session/download_buffer.go:195-199 | memory held is the log beyond the floor, at most the undelivered bytes plus maxRetain |
| DownloadBuffers.HistoryOf | internal/session/download_buffer.go:61-154 | after any calls the log is the bytes of the writes before the first Close, and the watermark the largest clamped Advance |
| DownloadBuffers.ResumeExactly | internal/session/download_buffer.go:166-185 | an offset is too old if and only if it is more than maxRetain behind that largest Advance |
| DownloadBuffers.DrainAfterClose | internal/session/download_buffer.go:156-185 | after Close, session-closed is reported if and only if the offset is at or past the end, and retained bytes are still served |
| DownloadSystem.DownloadSafety | internal/transport/xhttp/client.go:229-290 | in every run what the client has read is exactly the first downloadOffset bytes ever written: no gap, no repetition |
| DownloadSystem.InvReach | internal/transport/xhttp/server.go:164-202 | in every run each response is a stretch of the log from its requested offset, and the client's place in it matches its offset |
| DownloadSystem.WorldMoves | internal/session/download_buffer.go:61-154 | what a write, a Close, a GET, a connection and a dropped response do to the system, outright |
| DownloadSystem.WatermarkReach | internal/transport/xhttp/server.go:185-188 | the watermark never passes the furthest handler |
| DownloadSystem.ReconnectResumes | internal/transport/xhttp/server.go:164-171 | a client that trails every handler's place in the log by at most the replay window is never refused and gets the next bytes |
| DownloadSystem.NoLostWakeupExactly | internal/transport/xhttp/server.go:175-202 | over all runs in which at most n handlers wait at a time, however many more are alive, no handler sleeps past data or the end, if and only if n is at most 1 |
| DownloadSystem.StolenToken | internal/session/download_buffer.go:79-83 | the run with two waiting handlers in which the replaced one takes the token and its successor sleeps on |
| DownloadSystem.QuietMeansDelivered | internal/transport/xhttp/server.go:175-202 | with at most one handler waiting at a time, a client whose handler sleeps with no token has been given every byte written |
| Pipeline.InvStep | internal/transport/xhttp/client.go:346-363 | every step of launcher, POST or collector keeps the accounting of slots and results and uses up one of the steps left |
| Pipeline.SomeStepEnabled | internal/transport/xhttp/client.go:346-363 | some step can be taken if and only if Write has not finished: no deadlock |
| Pipeline.PipelineSchedules | internal/transport/xhttp/client.go:346-363 | every schedule keeps at most 8 POSTs in flight, may start another while fewer than 8 slots are held, and stops, finished, after exactly 4n + 1 steps |
| Pipeline.PipelineOutcome | internal/transport/xhttp/client.go:358-373 | each chunk gives exactly one result; the conn is broken, by the first error received, if and only if some POST failed |
| Client.CutChunks | internal/transport/xhttp/client.go:334-344 | the k-th chunk carries the k-th piece of the cut and the number k after the first |
| Common.CutPieces | internal/transport/xhttp/client.go:318-344 | the pieces are non-empty for a non-empty write, all but the last of full size, none larger, and concatenate to the write |
| Client.ReceiveAll | internal/transport/xhttp/client.go:358-363 | the error it keeps is the first one received |
| Client.ClientConn.MarkBroken | internal/transport/xhttp/client.go:166-180 | the first recorded error sticks, and closes the conn |
| Client.ClientConn.Write | internal/transport/xhttp/client.go:302-374 | packet mode posts each piece of the cut under the next number, one after the other, stream mode pipes exactly what the body takes; the first error is reported and recorded, and a broken conn returns it and sends nothing |
| Client.ClientConn.PostsInARun | internal/transport/xhttp/client.go:302-374 | on any conn, the POST numbered i carries chunk i of every run of the upload system that makes the same writes |
| Client.ChunksInARun | internal/transport/xhttp/client.go:318-344 | the chunks of a run are those of its writes in order, whatever else happens in it |
| Client.ClientConn.Read | internal/transport/xhttp/client.go:256-290 | takes the download system through Connect, ClientRead and ClientDrop steps between any steps of the server's side, keeps its offset and response those of the system, and returns exactly the next bytes of the session's log |
| Client.ClientConn.TryOnce | internal/transport/xhttp/client.go:260-288 | one try: its effects are those of the system's client steps, and the bytes are those left of the response |
| Client.TriesAreSteps | internal/transport/xhttp/client.go:256-290 | the three tries are a run of the download system |
| Client.ReadsInARun | internal/transport/xhttp/client.go:256-290 | from any reached state Read reaches another, in which all it ever returned is the log up to downloadOffset |
| Client.NothingSkipped | internal/transport/xhttp/client.go:260-289 | a Read that fails took no byte, each try that was let through had nothing to give, and the error is that of its third try, with the response dropped or kept accordingly |
| Handler.HandleDownload | internal/transport/xhttp/server.go:145-203 | the loop over the real buffer does, turn by turn, what a handler of the download system does, whatever others call between any two of its calls; cancelled while it waits, it returns with what it had sent and touches the buffer no more |
| Handler.TakeTurn | internal/transport/xhttp/server.go:175-202 | one turn of the loop is one turn of that handler, with other goroutines' calls before and after the select, during the response write and before the Advance |
| Handler.PassIsThreeSteps | internal/transport/xhttp/server.go:175-188 | read, send and acknowledge are three atomic steps of the download system that touch no other handler and not the client |
| Handler.ServeIsFaithful | internal/transport/xhttp/server.go:164-203 | over any turns the response is the stretch of the log from the requested offset on, and beyond what others acknowledge no byte is acknowledged that it has not carried |
| Handler.TurnSends | internal/transport/xhttp/server.go:175-190 | a turn with an unbroken response sends exactly the next bytes, up to the copy buffer's size, acknowledges them and can go on, unless others acknowledge more than a window ahead |
| Handler.PassExactly | internal/transport/xhttp/server.go:175-193 | a read outright: too old or closed at the end it exits, with nothing yet it waits, a broken response is left unacknowledged, a whole one is acknowledged |
| Handler.WaitingTurn | internal/transport/xhttp/server.go:195-201 | a waiting handler exits when cancelled, sleeps on without a token, and with one takes it and reads |
| Handler.CancelledStops | internal/transport/xhttp/server.go:199-201 | no turn after the cancelled one changes the response or the log |
| Sessions.UploadSession.PushUpload | internal/session/manager.go:72-84 | stores the chunk under its number unless the session is done; nothing else changes |
| Sessions.UploadSession.Close | internal/session/manager.go:132-156 | once: done, chunks released, pipe closed if there is one |
| Sessions.UploadSession.EnsureStreamPipe | internal/session/manager.go:171-186 | creates the pipe and sets the mode at most once |
| Sessions.UploadSession.CloseStreamUpload | internal/session/manager.go:206-212 | ends the pipe if there is one |
| Sessions.UploadSession.ReadUpload | internal/session/manager.go:96-114 | across any moves of other goroutines, hands out the chunk stored under nextSeq and no other, and steps past it, or says why not |
| Sessions.SplitConn.Read | internal/transport/xhttp/conn.go:48-75 | delivers, byte for byte, what a reader that waits for the other goroutines should find; at once, if it is there: pending pipe bytes, the leftover, the next chunk, or the end |
| Sessions.SplitConn.ReadStream | internal/transport/xhttp/conn.go:77-86 | an open pipe's pending bytes come at once, as many as fit, a closed pipe ends at once, and otherwise it waits; the leftover is left alone |
| Sessions.FindsExactly | internal/transport/xhttp/conn.go:48-86 | what a reader with room finds in each state of the session, outright |
| Sessions.AwaitExactly | internal/session/manager.go:96-114 | waiting lets the others act exactly as long as nothing is found |
| Sessions.EndIsFinal | internal/session/manager.go:132-156 | a closed session or ended pipe gives its reader the end, and never sleep, whatever follows |
| UploadSystem.UploadSafety | internal/session/manager.go:72-114 | in every run bytes read plus leftover are chunks 0 to nextSeq-1, a prefix of what was written, whatever the order, loss or repetition of POSTs |
| UploadSystem.PrefixSafeExactly | internal/transport/xhttp/server.go:99-106 | reads are a prefix of the writes in all runs if and only if the client's chunk size is at most the server's plus 1024 |
| UploadSystem.CutLosesBytes | internal/transport/xhttp/server.go:99-99 | for every larger chunk size, a run in which the reader sees bytes that were never written in that place |
| UploadSystem.BlockedMeansComplete | internal/transport/xhttp/conn.go:52-74 | if every chunk has landed and the reader would block, it has read everything written |
| UploadSystem.ReadsDrain | internal/transport/xhttp/conn.go:52-74 | if every chunk has landed, finitely many reads with any non-empty buffer end with exactly what was written |
| UploadSystem.StreamLossless | internal/transport/xhttp/server.go:119-143 | what was read from the pipe plus what is pending is what was pumped in; with no packet chunk landed, nothing is lost by the switch |
| UploadSystem.StreamDrains | internal/transport/xhttp/conn.go:77-86 | from any reached open stream state finitely many reads with any non-empty buffer end with exactly what was pumped |
| UploadSystem.PumpedIsRead | internal/transport/xhttp/server.go:127-133 | what is put into an open, empty pipe is read |
| UploadSystem.WorldMoves | internal/session/manager.go:72-212 | what a landed POST, the pipe's opening, filling and end, and Close do to the session, outright |
| UploadSystem.SwitchFreezesPackets | internal/transport/xhttp/conn.go:48-51 | after the switch no packet byte is ever read again |
| UploadSystem.SwitchLosesExactly | internal/session/manager.go:171-186 | with all chunks landed, plain reads can still hand out every byte written, and after the switch some continuation can if and only if they had all been read before it |
| UploadWakeup.InvReach | internal/session/manager.go:96-114 | with one reader, in every run it sleeps only with nothing to do or a broadcast on its way, however the unlocked flag moves |
| UploadWakeup.NoLostWakeupExactly | internal/session/manager.go:72-114 | no wakeup is lost in any run with n readers if and only if n is at most 1 |
| UploadWakeup.StrandedReader | internal/session/manager.go:82-84 | for every n of 2 or more, a run with wakeups in first-in first-out order that leaves a reader asleep beside its chunk |
| UploadWakeup.ReaderCanMove | internal/session/manager.go:96-114 | the single reader is asleep or can take a step: the lock never wedges it |
| Emit.OfferedOnce | internal/transport/xhttp/server.go:208-229 | in every run a session's sends, made and to come, are exactly one if it is accepted and none if not, and no send precedes a registered GET |
| Emit.EmitConserves | internal/transport/xhttp/server.go:224-228 | accepted sessions are queued, taken, dropped or about to be sent; the queue holds at most 64, and nothing is dropped before more than 64 were offered |
| Emit.OfferedByFirstGetExactly | internal/transport/xhttp/server.go:145-151 | once a GET is past tryEmit its session has been offered, if and only if no other handler sits between swap and send |
| Emit.GetPassesBeforeTheOffer | internal/transport/xhttp/server.go:214-228 | a run in which the GET has passed and nothing has been offered |
| Emit.SettledExactly | internal/transport/xhttp/server.go:105-109 | when all handlers are through, the sessions offered, once each, are exactly those with a GET |
| Emit.DroppedForGood | internal/transport/xhttp/server.go:224-228 | a dropped session is in no later queue and is never handed out |
| Emit.HandlerGetsThrough | internal/transport/xhttp/server.go:208-229 | a handler alone is through tryEmit in four steps, and offers its session exactly if a GET has registered and it was not accepted |
| Emit.AcceptTakesOldest | internal/transport/xhttp/server.go:40-50 | Accept hands out the session queued longest |
| SessionTable.Manager.GetOrCreate | internal/session/manager.go:255-265 | returns the object listed under the identifier, or a new one, created now, open and unconnected, and lists it |
| SessionTable.Manager.Get | internal/session/manager.go:268-272 | returns the listed object, or nil if and only if there is none |
| SessionTable.Manager.Remove | internal/session/manager.go:275-282 | closes and unlists the one session, and no other |
| SessionTable.Manager.SweepOnce | internal/session/manager.go:291-316 | in whatever order the map is walked and whatever flags are set between select and eviction, does exactly the visits' work one after the other |
| SessionTable.OpenIsListedAlways | internal/session/manager.go:255-316 | in every run, with flags set between the steps of a sweep, an open session is the one listed under its identifier |
| SessionTable.OneOpenPerId | internal/session/manager.go:255-316 | at no time are two sessions of one identifier open |
| SessionTable.SameSessionUntilClosed | internal/session/manager.go:255-265 | at every moment between its creation and its closing GetOrCreate returns this session |
| SessionTable.SweepExactly | internal/session/manager.go:291-316 | a finished sweep has kept, of the sessions that nobody flipped meanwhile, exactly the connected open ones and the unconnected ones with now - createdAt <= ttl, and closed the other unconnected ones, whatever happened to the rest |
| SessionTable.TtlExactly | internal/session/manager.go:307-311 | over any run, an unconnected session made at time born and left alone is listed after a sweep at now if and only if now - born <= ttl, and closed by it if not |
| SessionTable.BornAt | internal/session/manager.go:255-265 | a session's createdAt is the time of the GetOrCreate that made it, in every later state |
| SessionTable.Manager.SweepSettles | internal/session/manager.go:291-316 | the same for the objects of the table after the real loop |
| SessionTable.VisitExactly | internal/session/manager.go:298-312 | one visit against any flags set in between: evicted exactly if seen connected and closed by then, or seen unconnected with now - createdAt > ttl, always closed once evicted; a session it closes connected is exactly one that connected between select and Close |
| SessionTable.ConnectedSessionEvicted | internal/session/manager.go:300-312 | the run in which a session connects after the select and is closed and evicted connected |
| SessionTable.EstablishedStays | internal/session/manager.go:298-312 | a session connected and open, which no sweep has in hand as unconnected, stays open and listed through any sweeps until its conn or Remove closes it |
| SessionTable.SweepIsARun | internal/session/manager.go:291-316 | the loop over the whole map is a run of the atomic steps |
| SessionTable.LookupIsOpenExactly | internal/session/manager.go:255-265 | what GetOrCreate returns is open if and only if the identifier is free or has an open session |
| SessionTable.ClosedSessionHandedOut | internal/session/manager.go:255-265 | a run in which it returns a closed one |
| Streams.ReadFull | internal/protocol/framing.go:44-71 | over any segmentation, succeeds if and only if that many bytes ever come, and takes exactly those |
| Streams.AcceptsDelimits | internal/protocol/framing.go:44-71 | a code that parses back and accepts only its own output cannot find a value in part of one |
| Streams.PrefixDecodes | internal/protocol/framing.go:44-71 | any prefix of an encoded list decodes to exactly the values it holds whole |
| Padding.FrameSurvivesExactly | internal/middleware/padding/padding.go:70-83 | a padding frame comes back if and only if its padding fits the 16-bit field |
| Padding.WireBytes | internal/middleware/padding/padding.go:70-83 | the header bytes of a frame, low byte first |
| Padding.PadDelimits | internal/middleware/padding/padding.go:85-118 | the header delimits frames, and whatever the reader accepts is a frame the writer could have sent |
| Padding.PaddingRoundTrip | internal/middleware/padding/padding.go:52-118 | for any writes and any padding, any received prefix of the wire unpads to a prefix of the writes, and all to all |
| Padding.ReadsArePrefix | internal/middleware/padding/padding.go:86-118 | over any sequence of reader buffers, the reads one after the other and the leftover are a prefix of the writes |
| Padding.PaddingWriter.WriteFrame | internal/middleware/padding/padding.go:70-83 | sends exactly header, data and padding, or nothing if refused |
| Padding.PaddingWriter.Write | internal/middleware/padding/padding.go:52-68 | sends exactly the frames of the pieces up to the first refusal; its count is what those carried, except on the short path |
| Padding.SentPiece | internal/middleware/padding/padding.go:52-83 | the k-th inner write carries the k-th piece and the padding drawn for it |
| Padding.PaddingReader.Read | internal/middleware/padding/padding.go:86-118 | returns the next bytes of what remains for any buffer and segmentation, keeps the rest as leftover, and fails only when nothing whole remains |
| Padding.PaddingReader.ReadWhole | internal/middleware/padding/padding.go:96-111 | takes exactly one frame off the stream and drops its padding |
| Framing.WriteFrame | internal/protocol/framing.go:22-41 | refuses exactly the frames over 65535; onto a writer that may fail anywhere it puts a prefix of the encoding, and all of it exactly on success |
| Framing.ReadFrame | internal/protocol/framing.go:44-71 | over any segmentation, accepts exactly what parses and takes exactly one frame |
| Framing.ParseBack | internal/protocol/framing.go:22-71 | every frame that fits is read back with whatever follows it untouched |
| Framing.WireBytes | internal/protocol/framing.go:22-41 | the bytes of a frame: length with the type byte counted, low byte first, type, payload |
| Framing.AcceptedIsEmitted | internal/protocol/framing.go:44-71 | any bytes accepted are byte for byte what is written for the frame returned |
| Framing.FramesSurvive | internal/protocol/framing.go:22-71 | any received prefix of a written list of frames reads back as a prefix of the list |
| Stack.Wrap | internal/middleware/middleware.go:19-24 | the conn is wrapped in list order, the last middleware outermost |
| Stack.StackDelivers | internal/middleware/middleware.go:19-24 | for chains of any length, prefix delivery below gives prefix delivery on top, and full gives full |
| Stack.FramesThroughStack | internal/protocol/framing.go:22-71 | frames written through any such stack are read back as a prefix of the same frames |
| Stack.UploadOfFrames | internal/transport/xhttp/client.go:302-374 | end to end, at every moment of every upload run, even with the writes broken off inside a frame, the server's frame reader sees a prefix of the client's frames, and all once all has been read |
| Stack.DownloadOfFrames | internal/transport/xhttp/client.go:229-290 | end to end, at every moment of every download run with drops, reconnects and a session closed anywhere, the client's frame reader sees a prefix of the server's frames, and all once all has been read |
| Addresses.ScansDotted | internal/protocol/framing.go:146-153 | a written dotted quad is recognised, whatever non-digit text follows |
| Addresses.ConnectExactly | internal/protocol/framing.go:74-144 | a CONNECT target arrives unchanged if and only if its host is a plain quad or a name of at most 255 bytes that starts with none |
| Addresses.QuadsArePlain | internal/protocol/framing.go:146-153 | every IPv4 address in dotted form is such a host |
| Addresses.QuadNameIsReplaced | internal/protocol/framing.go:146-153 | a longer name that starts with a quad arrives as the quad |
| Addresses.EncodeConnectPayload | internal/protocol/framing.go:74-100 | the buffer filled in place is the encoding |
| Addresses.WireBytes | internal/protocol/framing.go:74-100 | the bytes of a CONNECT payload, types and byte order outright |
| Addresses.DecodesExactly | internal/protocol/framing.go:103-144 | over every byte string, whether and what DecodeConnectPayload decodes |
| Addresses.RecognisedIsAQuad | internal/protocol/framing.go:146-153 | whatever the scanner recognises is four numbers of at most 255 with dots between |
| Udp.AddrExactly | internal/protocol/udp.go:96-161 | with any payload behind it, an address decodes to itself and its own length if and only if its host is plain |
| Udp.WireBytes | internal/protocol/udp.go:33-120 | the bytes of a datagram and of each kind of address |
| Udp.ParseBack | internal/protocol/udp.go:33-93 | a datagram is read back identically, with the exact payload boundary and the rest untouched |
| Udp.CutShort | internal/protocol/udp.go:63-93 | no proper prefix of a datagram is taken for one |
| Udp.ParsesExactly | internal/protocol/udp.go:63-93 | over every byte string, whether a datagram is refused, waited for or taken, and which bytes it is |
| Udp.DatagramsSurvive | internal/protocol/udp.go:33-93 | any received prefix of a list of datagrams reads back as a prefix of the list |
| Udp.WriteMessage | internal/protocol/udp.go:33-60 | refuses exactly what is over 65535 bytes; onto a conn that may fail anywhere it puts a prefix of the encoding, and all of it exactly on success |
| Udp.ReadMessage | internal/protocol/udp.go:63-93 | over any segmentation, accepts exactly what parses and takes exactly one datagram |
| Socks5.SOCKS5Handshake | internal/proxy/socks5.go:31-98 | over any segmentation, through the reused buffer, whether or not the client takes the replies: target, bytes consumed and replies are those of the protocol's reading |
| Socks5.HandshakeUnderstands | internal/proxy/socks5.go:31-98 | every IPv4 or domain request of a client is understood, and nothing behind it is consumed |
| Socks5.WireBytes | internal/proxy/socks5.go:31-98 | the request that is understood, byte by byte (sections 3 to 5 of RFC 1928) |
| Socks5.HandshakeRefuses | internal/proxy/socks5.go:38-89 | wrong versions are dropped unanswered, other commands refused with code 7, unknown address kinds with code 8, byte by byte |
| Socks5.SocksToConnect | internal/proxy/socks5.go:31-98 | from SOCKS5 request to CONNECT target: addresses arrive unchanged, names if and only if they do not start with a quad or are one |
| Sni.SNIExtract | internal/security/reality.go:186-256 | for every byte string the cursor stays in range, the loop ends, and the result is that of walking the extension blocks |
| Sni.OneExtension | internal/security/reality.go:225-253 | one turn of the loop moves forward and agrees with the walk |
| Sni.NameOfPrefix | internal/security/reality.go:186-256 | on any prefix of any ClientHello, the name asked for if and only if it holds the whole extension, otherwise empty |
| Sni.NameOfHello | internal/security/reality.go:186-256 | on a whole ClientHello with any extensions, the first server_name host, or empty if there is none |
| Sni.NotAHello | internal/security/reality.go:186-203 | data that is too short, no handshake record or no ClientHello has no name |
| Sni.NameStands | internal/security/reality.go:225-253 | over every byte string, a name that is returned stands in the data behind its own length |
| Sni.OtherBlocks | internal/security/reality.go:225-253 | a server_name of less than five bytes ends the search, one that does not fit and other extensions are passed over |
| RateLimiter.Limiter.StripPort | internal/transport/xhttp/ratelimit.go:38-45 | everything before the last colon, or the whole address |
| RateLimiter.Limiter.Allow | internal/transport/xhttp/ratelimit.go:33-65 | touches exactly the slot of that IP: a first request or one more than a window after the slot's start opens a new window and is admitted, any other is counted and admitted up to maxRate |
| RateLimiter.Limiter.Cleanup | internal/transport/xhttp/ratelimit.go:67-81 | in whatever order, removes exactly the slots older than two windows |
| RateLimiter.EvictionTransparent | internal/transport/xhttp/ratelimit.go:71-79 | every later answer is the one given had nothing ever been evicted |
| RateLimiter.AdmitsWithinRate | internal/transport/xhttp/ratelimit.go:47-64 | over every run, the request that opens a window and the first maxRate in it are exactly those admitted |
| RateLimiter.QuietIsAdmitted | internal/transport/xhttp/ratelimit.go:57-61 | a client silent for more than a window is admitted |
| RateLimiter.RateBound | internal/transport/xhttp/ratelimit.go:47-64 | over every run, a closed interval of one window's length admits at most 2 * maxRate - 1 requests of one IP |
| RateLimiter.RateBoundExactly | internal/transport/xhttp/ratelimit.go:47-64 | a bound holds for all runs if and only if it is at least 2 * maxRate - 1 |
| Token.TimeRoundTrip | internal/crypto/auth/x25519.go:32-92 | a 64-bit time survives its eight bytes |
| Token.TimelyExactly | internal/crypto/auth/x25519.go:111-201 | for clocks after the epoch the wrapping check is on the true distance |
| Token.LayoutExactly | internal/crypto/auth/x25519.go:111-201 | the variable-length layout splits back into its fields if and only if the short ID has at most 8 bytes |
| Token.SplitLosesNothing | internal/crypto/auth/x25519.go:111-201 | any token that splits is the join of its parts |
| Token.TokenAgreement | internal/crypto/auth/x25519.go:111-201 | a token made with matching keys yields exactly its session ID if the short ID has at most 8 bytes and is registered with 32 zero bytes or with the user's own key, and the clocks are within MaxTimeDiff; it is rejected otherwise |
| Token.ValidExactly | internal/crypto/auth/x25519.go:111-216 | over every byte string, exactly what Validate accepts, read off the token's own bytes: layout, registered key, time, and opening under the key derived from its own fields |
| Token.GeneratedExactly | internal/crypto/auth/x25519.go:32-92 | the bytes of a token and what its key is derived from |
| Token.TimelyWithWrap | internal/crypto/auth/x25519.go:155-163 | for any timestamp, the check passes within MaxTimeDiff and where the 64-bit difference wraps, and nowhere else |
| Token.WrappedTimePasses | internal/crypto/auth/x25519.go:157-163 | the input: a timestamp 2^63 seconds before now |
| Token.TimeField | internal/crypto/auth/x25519.go:59-61 | the weights of the eight time bytes, highest first |
| Token.HexInjective | internal/crypto/auth/x25519.go:111-201 | the user table's hex keys tell short IDs apart |
| Throttle.Detector.RecordRTT | internal/throttle/detector.go:79-94 | the memory moves by exactly one step of the detector, and listeners are told exactly when the state changes |
| Throttle.Detector.RecordThroughput | internal/throttle/detector.go:97-111 | the same for a throughput sample, with the average of the window as baseline while it is short |
| Throttle.Detector.Evaluate | internal/throttle/detector.go:128-168 | a spike or a drop extends the count, anything else resets it |
| Throttle.ThrottleHistory | internal/throttle/detector.go:128-168 | after any samples the count is the length of the trailing run of suspicious verdicts; Throttled if and only if it reaches ConfirmCount, Normal if and only if it is 0 |
| Throttle.RttWindow | internal/throttle/detector.go:79-94 | the window holds the latest samples, and once five have come a window of more than five keeps the third ever as baseline |
| Throttle.TputWindow | internal/throttle/detector.go:97-111 | the window holds the latest throughputs, and a window of more than five keeps the average of the first five as baseline |
| Throttle.SpikeByNumbers | internal/throttle/detector.go:131-138 | which round trip is a spike, by the numbers |
| Throttle.DropByNumbers | internal/throttle/detector.go:140-147 | which throughput is a drop, by the numbers and without the division |
| Throttle.VerdictByHistory | internal/throttle/detector.go:128-148 | the verdict on the last sample of a whole history, from the samples as recorded |
| Throttle.Adaptive.OnStateChange | internal/throttle/adaptive.go:75-103 | one callback's answer, and the rotation signal when the strategy asks for it |
| Throttle.RaceStaysInRange | internal/throttle/adaptive.go:75-103 | under any interleaving of the separate loads and stores the recommendation stays between base and the larger of base and maximum |
| Throttle.Doubling | internal/throttle/adaptive.go:75-85 | k Throttled callbacks in a row from the base give min(base * 2^k, max) when base is at most max |
| Throttle.UpAndDown | internal/throttle/adaptive.go:75-103 | k Throttled callbacks followed by k Normal ones end at the base |
| Throttle.HalvesExactly | internal/throttle/adaptive.go:95-102 | each Normal callback undoes exactly one doubling |
| Throttle.RaceAlone | internal/throttle/adaptive.go:75-103 | a callback that nobody comes between answers what the recommendation was |
| Throttle.Settling | internal/throttle/adaptive.go:95-102 | from any value of at most base * 2^k, k Normal callbacks end exactly at the base |
| Throttle.InOrderDoublesOnce | internal/throttle/detector.go:158-167 | answered in order, the recommendation is the base, or one capped doubling of it while throttled, and nothing else |

## Left out

- HTTP, TLS, uTLS, QUIC, sockets, flushing, contexts and retry delays: library input and output, modelled only as network steps (deliver, drop, refuse, reconnect).
- X25519, HKDF, ChaCha20-Poly1305, BLAKE2b, base64 and the cookie or header the token travels in: functions with algebraic laws, or not part of this model.
- The parsers and printers of IP addresses in the Go library are parameters; the dotted-quad scanner is modelled down to its digits, with the white space it skips as a parameter.
- Client.ClientConn.Write: the results of the concurrent POSTs and of the pipe are arguments; `Pipeline` has the concurrency of the POSTs, `Sessions` and `UploadSystem` the server's half of the stream.
- Sessions.UploadSession.Close: the upload half only. The closed flag is in `SessionTable`, the download half in `DownloadBuffers`. After it, a first stream-mode request creates a new, open pipe, as in the code; stream claims are about what that pipe carries.
- UploadSystem.UploadSafety: one writer and one reader, as the code assumes; two writers would interleave their chunks' numbers.
- Throttle.Detector.RecordThroughput: `real` arithmetic in place of 64-bit floats, so not-a-number and rounding are absent.
- Throttle.Detector.RecordRTT: durations are unbounded; a baseline over a third of the largest duration would overflow when tripled.
- The widths of sequence numbers, offsets and counters are not modelled: 64-bit counters that would wrap only after 2^63 steps.
- `DownloadBuffer`'s copying into a smaller backing array: contents and lengths are modelled, capacity is not.
- An evicted session gets a fresh object on the next request of the same identifier; the byte-stream theorems are for one session object.
- Closing the server while handlers still emit: the send on the closed accept channel panics, and no run contains it.
- `MultiplexedWriter`, `PeekConn`, transport manager, backoff, pool, rotator, canary, port hopping, cover traffic, command line, configuration and the management interface: easy members only, or library behaviour.
- Jitter and shaping middlewares delay and pass bytes through; they are one pass-through layer in `Stack`.

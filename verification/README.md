# adibi: a verified model of the device side of ADB

adibi answers an ADB host over three USB endpoints. One event loop completes io_uring operations,
reassembles host messages, multiplexes streams over the link with OKAY/WRTE/CLSE flow control, and
serves sync (file transfer), shell and port-forwarding streams. This project models that core and
proves what its layers promise each other and the host.

The layers, bottom up:

- **Codecs.** `Message` (headers, checksum), `Tags` (64-bit completion tags), `SyncCodec` (sync
  requests, frames and replies), `Utf8` (service names). Each printer has a parser and both round trips.
- **Sync engine.** `Receiver` specifies the push decoder as an automaton that reads one byte at a
  time (`Feed`, `StepByte`) and proves the class `FileReceiver`, with the source's loop and its
  header buffer, equal to it. `Frames` gives the grammar (DATA\* DONE) the decoder accepts, `Sender` the
  pull side, `SyncService` the session (the class `SyncServer` against the function `Handle`), and
  `Push` a whole push, however the host cuts it into WRTEs.
- **Connection.** `Protocol` states each handler as a function from a connection state and an event
  to a new state and the operations submitted; a run is any sequence of events that does not panic.
  `StreamMachine` is one stream alone. `Isolation` proves that the connection is the product of such
  machines, so the results about one stream (`FlowControl`, `Relay`, `Pull`, `Push`) hold in any
  interleaving (`EndToEnd`). `Lifecycle` and `Acks` are about all messages of a run. `Commands` and
  `Requests` say, from the bytes of a message alone, what each one is answered with.
- **Ring.** `Buffers` is the pool of write buffers; `EventRing` the event loop with the operations the
  kernel still owes; `RingInvariants`, `History`, `Inbound`, `Wire` and `RingFlow` are about every state
  the loop reaches and all that goes in and out of it. `Connection` holds the mutable objects (`StreamManager`, `AdbConnection`) with the source's
  handlers and its loop; each method is proved to do exactly what the function of its name does, so
  everything above holds of the objects too.
- `Forward` is the partial-write loop into a forwarded socket.

What the operating system would answer (reads, writes, spawns, stat, completions in any order) is
part of the events, so a statement over all runs is a statement over all its answers. The conditions
the daemon relies on are written out: `Panics` covers the panics of the handlers (a payload missing or
not allowed, a wrong remote id, traffic to a reboot stream, no ids left), `Calm` adds room in the buffer
pool, and `Honest`, `HonestHost` and `Disciplined` say what a host must not do.

Where the code and its comments differ, the model follows the code:

- The comment on `remote_closed` (src/stream.rs:54-68) says the socket drains after a host CLSE; it
  does, but each WRTE still waits for the host's OKAY, because nothing reads the flag.
  `Relay.HostClseInvisible` states exactly that.
- `StreamManager::open` is documented to fail for an unknown service; it also fails when a shell
  cannot be spawned or a destination not connected.
- STAT, FAIL and OKAY sync replies are WRTEs that do not set `waiting_for_okay`.
- Bytes behind a DONE frame in the same payload are dropped (`Frames.AcceptedPrefix`); a SEND path ends
  at the first comma (`SyncCodec.SendRequestShape`).

Some properties hold only under a condition, which is proved to be exact:

- the checksum equals the sum of the bytes for all payloads of a length if and only if that length is at
  most 16,843,009 (`Message.ChecksumExactLength`);
- a push does not depend on how the host cuts it if and only if the disk has room for it: a write that
  fails ends the transfer at once, and the bytes of a later payload are then taken for a request
  (`Push.CutsIrrelevantExactly`, with an example in `Push.FullDiskExample`);
- an OKAY keeps a relaying stream to one outstanding operation if and only if it answers a WRTE
  (`FlowControl.SpuriousOkay`);
- an event of a sync stream keeps at most one WRTE unanswered, and the waiting flag right, if and only if
  the host is disciplined in it (`Pull.StepKeepsPull`, with an example in `Pull.StatDuringPull`).

## Model

| member | source | states |
|---|---|---|
| Push.PushEndToEnd | src/sync.rs:484-580 | For any chunks (empty ones included), mode, mtime and disk, and any session not receiving, however SEND + DATA\* + DONE is cut at or after the end of the request: the payloads before some payload k are answered with nothing and that one with the push's one reply (OKAY, or FAIL for a full disk or a refused mode); the session is then idle (or, if its first payload ended the push, as before) and has gained exactly the file that leaves. If the disk has room, k is the last payload |
| Push.PushSucceedsExactly | src/sync.rs:332-450 | Nothing for every payload but the last and one OKAY for the last: if and only if the disk has room for the chunks and takes the mode; the file then has those contents, mode and mtime |
| Push.CutsIrrelevantExactly | src/sync.rs:405-411 | Every cutting of a push is answered with nothing and then, for its last payload, the push's one reply: if and only if the disk has room for the chunks |
| Push.FullDiskExample | src/sync.rs:405-411 | Two bytes of a chunk on a full disk: one FAIL if sent together, a second one for an invalid request if sent apart |
| Push.BadPushFails | src/sync.rs:349-390 | A push whose frames go wrong, however it is cut: one payload is answered, with FAIL "invalid sync frame during send", the push is over, and the file holds the chunks before the bad frame and is removed |
| EndToEnd.StreamPush | src/main.rs:291-328 | The same push as WRTEs on an open stream, whatever the disk: one OKAY message for each WRTE up to the one that ends it, then one WRTE with the reply, and the session has gained the file |
| EndToEnd.ConnectionPush | src/main.rs:291-355 | The same on a whole connection in any interleaving, with any events of the stream before the push that leave its session not receiving and any after it: its messages are those of the first part, the push's, and those of the rest run from the session with the new file |
| Receiver.FeedConcat | src/sync.rs:332-426 | Feeding a then b is feeding a + b, in file, reply and exact decoder state, for every reachable state; b has no effect once a has finished |
| Receiver.FileReceiver.Receive | src/sync.rs:332-426 | The loop over a payload, with its header buffer and its terminating order (bytes left, then an empty chunk), ends in exactly the automaton's outcome |
| Receiver.FileReceiver.HeaderArm | src/sync.rs:337-365 | The Header arm: whole header, or the start of one kept zero-padded, as the automaton would, and progress |
| Receiver.FileReceiver.PartialArm | src/sync.rs:366-398 | The PartialHeader arm: completes the kept header or keeps more of it, as the automaton would, and progress |
| Receiver.FileReceiver.DataArm | src/sync.rs:399-419 | The Data arm: writes what belongs to the chunk; takes nothing only for an empty chunk, and then leaves Data |
| Receiver.FileReceiver.FinalizeTransfer | src/sync.rs:428-450 | Sets the mode, then the mtime; a refused mode aborts with FAIL, a refused mtime still answers OKAY |
| Receiver.FeedPartialShort | src/sync.rs:366-378 | Fewer bytes than a header still needs are kept, zero-padded to eight |
| Receiver.FeedPartialFull | src/sync.rs:380-398 | The header completed across two payloads is treated as if it had come whole |
| Receiver.FeedDataOverflows | src/sync.rs:402-408 | A disk that fills up mid-chunk: the file holds exactly what fitted, the path is removed, the reply is the write error |
| Frames.FeedFileStream | src/sync.rs:332-450 | A DATA\* DONE stream writes the chunks in order and applies mode and mtime, or fails with exactly the bytes that fitted |
| Frames.FeedPrefix | src/sync.rs:332-426 | No strict prefix of a stream that fits ends the transfer |
| Frames.OverflowIsEarly | src/sync.rs:402-411 | A stream that does not fit ends it, with the write error, before its last byte |
| Frames.BadFrameFails | src/sync.rs:349-390 | Between frames, eight bytes that open with neither DATA nor DONE end the transfer with that FAIL; contents are the chunks before them, mode and mtime are untouched, the path is removed |
| Frames.FramesSpelled | src/sync.rs:155-203 | A DATA frame is its four letters, its length and its bytes; a DONE frame its four letters and the mtime |
| Frames.DecodeAccepted | src/sync.rs:332-450 | Whatever bytes earn an OKAY begin with a well-formed stream whose chunks fit the disk |
| Frames.AcceptedExactly | src/sync.rs:332-450 | The receiver answers OKAY if and only if the bytes begin with a DATA\* DONE stream that fits the disk and the mode can be set |
| Frames.AcceptedPrefix | src/sync.rs:362-364 | Bytes behind the DONE frame change nothing |
| Sender.FileSender.Next | src/sync.rs:281-300 | One frame per call: DATA for a read, DONE at the end of the file, FAIL for a read error, then nothing |
| Sender.AnyReadLength | src/sync.rs:281-300 | The model lets a read end after any number of bytes from one to 64 KiB, and no other |
| Sender.DrainIsFileStream | src/sync.rs:281-300 | The frames made under any schedule of short reads spell the DATA\* DONE stream of the file as the reads cut it |
| Sender.SenderReceiverRoundTrip | src/sync.rs:281-426 | Those bytes, cut again anywhere, make a receiver between frames write the file's contents and answer OKAY |
| SyncService.SyncServer.HandlePayload | src/sync.rs:484-506 | The session object, with the decoder or sender it owns, gives the function's next state and answer |
| SyncService.SyncServer.Send | src/sync.rs:551-580 | Frames packed behind a SEND reach the new receiver first; if they end the transfer it is never installed |
| SyncService.SyncServer.Recv | src/sync.rs:534-547 | A RECV starts sending from the file's beginning, or answers FAIL and stays idle |
| SyncService.StatAnswered | src/sync.rs:484-531 | A session not receiving answers an LSTAT with the words STAT, mode, size and mtime, zeros for a missing file, and is unchanged |
| SyncCodec.ParseOfSendRequest | src/sync.rs:120-153 | A printed SEND request parses back to its path and mode and leaves exactly the bytes behind it; a mode above u32::MAX is rejected |
| SyncCodec.ParseOfPathRequest | src/sync.rs:120-153 | A printed LSTAT or RECV request parses back to its path, empty or with commas, and leaves exactly the bytes behind it |
| SyncCodec.SendRequestShape | src/sync.rs:120-153 | An accepted SEND has a non-empty path without a comma and digits that spell its mode, and the leftover is the rest of the input |
| SyncCodec.RequestsExactly | src/sync.rs:120-153 | The inputs accepted as requests are exactly QUIT, STAT or RECV with a path, and SEND with a path and a mode that fits, each with anything behind it |
| SyncCodec.QuitExactly | src/sync.rs:120-153 | An input is read as QUIT if and only if it opens with those four letters |
| Requests.QuitCloses | src/sync.rs:484-506 | QUIT, whatever follows it, is acknowledged and closes the stream with one CLSE |
| Requests.QuitOnConnection | src/main.rs:329-334 | The same on the connection: these two messages, the stream gone and nothing else changed |
| Requests.NoRequestRefused | src/sync.rs:486-498 | What is no request is acknowledged and answered with FAIL "invalid sync request"; the stream is as it was |
| Requests.StatIsAnswered | src/sync.rs:512-531 | On the wire, STAT is answered with STAT, mode, size and mtime, zeros for a missing file |
| Requests.RecvRefused | src/sync.rs:534-547 | RECV of a file that cannot be opened is answered with FAIL and the reason; the stream is as it was |
| Requests.RecvStarts | src/sync.rs:534-547 | RECV of a file that can be opened is answered with its first frame, and the stream waits |
| Requests.SendRefused | src/sync.rs:551-565 | SEND of a file that cannot be created is answered with FAIL and the reason; the stream is as it was |
| Requests.OkayContinues | src/sync.rs:281-300 | Each OKAY during a pull is answered with the next frame: up to 64 KiB of what is left, DONE at the end, FAIL for a read error; after the last two the transfer is over |
| Requests.OkayEnds | src/main.rs:884-909 | The OKAY for DONE or FAIL leaves the session idle, not waiting, and sends nothing |
| Requests.ClosesExactly | src/main.rs:178-355 | A stream is closed if and only if its back end ends or fails, a write into it fails, it is sent QUIT, or it is sent CLSE and does not forward; the last message is then its CLSE |
| Requests.ClseShutsForward | src/main.rs:188-193 | A host CLSE leaves a forward stream open with its write side shut down and sends nothing |
| Utf8.Utf8Exactly | src/main.rs:256-261 | A byte string is accepted as text if and only if it encodes some sequence of Unicode scalar values |
| Commands.CnxnAnswered | src/main.rs:203-226 | CNXN sets the host's version, V0 if unknown, and is answered under it with version 0x01000001, 2^20 bytes and the identity |
| Commands.OpenByName | src/main.rs:241-288 | Which service a NUL-terminated name opens, with its first read, and every case in which the OPEN is refused by a CLSE with local id 0 |
| Commands.NoNulRefused | src/main.rs:249-254 | A payload without a NUL is refused the same way |
| Commands.ClseHandled | src/main.rs:178-200 | A host CLSE removes and answers any stream but a forward, which it shuts down; for an unknown id nothing happens |
| Commands.StrayWrte | src/main.rs:291-308 | A WRTE to an unknown id is acknowledged and nothing else |
| SyncCodec.ReplySpelled | src/sync.rs:583-628 | Every reply frame is its four letters, the length of its payload and the payload |
| SyncCodec.ParseOfFrameHeader | src/sync.rs:198-203 | A printed frame header parses back to itself |
| SyncCodec.FrameHeaderOfParse | src/sync.rs:164-203 | An accepted frame header prints back to its eight bytes |
| Message.ParseOfPrint | src/message.rs:168-185 | A printed header parses back to itself exactly when its magic word is right, whatever follows it |
| Message.PrintOfParse | src/message.rs:168-185 | Every accepted 24-byte header prints back to the same bytes |
| Message.BuiltHeaderParses | src/message.rs:188-242 | Every header the daemon builds parses back to itself, with the payload's length, and 0 or the byte sum as its check |
| Message.BuiltHeaderSpelled | src/message.rs:188-242 | Byte for byte, a built header is the command's four letters, both arguments, the length, the byte sum (V0) or 0 (V1), and the inverse of the letters |
| Message.HeaderAcceptedExactly | src/message.rs:156-185 | A buffer is accepted as a header of a command if and only if it has 24 bytes, opens with the command's letters and has their inverse as its sixth word; the other fields are its words |
| Message.ChecksumExactLength | src/message.rs:117-154 | The 32-bit checksum of every payload of length n is its byte sum if and only if n is at most 16,843,009, which covers the largest payload |
| Message.ChecksumConcat | src/message.rs:152-154 | Checksums add up over concatenation, modulo 2^32 |
| Message.CommandOf | src/message.rs:41-62 | Inverse of the command codes, and undefined exactly off them |
| Message.VersionOf | src/message.rs:97-113 | Inverse of the version codes, and undefined exactly off them |
| Tags.UnpackOfPack | src/main.rs:103-145 | Every operation tag unpacks to what was packed |
| Tags.PackOfUnpack | src/main.rs:117-145 | The tags accepted are those with an operation code in 1..6, and each repacks to itself |
| Isolation.OneStep | src/main.rs:178-407 | One event of the connection is one event of the stream it names and none of any other, for every id it does not itself hand out |
| Isolation.StreamIsolation | src/main.rs:178-567 | Over any run, each stream's final state and its sequence of messages and reads are those of running its own events alone |
| Lifecycle.NextIdCounts | src/stream.rs:126-127 | `next_id` grows by one with each successful OPEN and by nothing else |
| Lifecycle.FindOpening | src/stream.rs:126-137 | Every id handed out was handed out by one event of the run, a successful OPEN, when it was the next id |
| Lifecycle.NeverReused | src/main.rs:473-567 | A removed stream stays removed over every run, and a late PTY or socket completion for it (data, end or error) changes nothing and submits nothing |
| Lifecycle.RunBeforeOpen | src/main.rs:291-308 | Before its OPEN nothing carries a local id but acknowledgements of stray WRTEs |
| Lifecycle.OpenedStream | src/main.rs:241-288 | The messages of a stream over a whole run: such acknowledgements, the OKAY of its OPEN, its first read, and then exactly what its own events lead to |
| Lifecycle.StreamLifecycle | src/main.rs:178-355 | Every stream's CLSE appears if and only if the stream is gone, once, after the OKAY that opened it, with no WRTE behind it |
| Acks.AcksConserved | src/main.rs:241-305 | Over any run the OKAYs are one per successful OPEN plus one per WRTE dispatched; the other OPENs are as many as the CLSEs with local id 0; `next_id` has grown by the OPENs accepted |
| Acks.EachAnswered | src/main.rs:241-305 | Each single OPEN and WRTE of a run is answered where it is dispatched, first and exactly once: a WRTE by an OKAY, an OPEN by an OKAY with a fresh id or by a CLSE with local id 0 |
| FlowControl.FlowControlled | src/main.rs:229-238 | Over any honest run of a shell or forward stream, reads in flight plus unanswered WRTEs are 1 while it is open, and `waiting_for_okay` is set exactly when the WRTE is it |
| FlowControl.SpuriousOkay | src/main.rs:229-238 | An OKAY keeps that invariant if and only if it answers a WRTE |
| EndToEnd.ConnectionFlow | src/main.rs:798-881 | The same for one stream of a whole connection in any interleaving |
| RingFlow.OneThingOutstanding | src/main.rs:473-567 | The same with the reads counted in the ring itself: in every state of the loop, so the one read buffer never serves two reads |
| Relay.RelayWhileOpen | src/main.rs:489-567 | While a shell or forward stream is open, the bytes sent to the host are exactly the completed reads and the bytes put into the back end exactly the host's WRTE payloads |
| Relay.RelayUntilClosed | src/main.rs:473-567 | In every run, whatever closes the stream, the bytes sent to the host are exactly the reads completed before it was closed |
| Relay.RelayUntilEof | src/main.rs:522-537 | End of file closes the stream with its only CLSE, last, after everything read was sent |
| Relay.HostClseInvisible | src/main.rs:188-193 | For the same answers of the socket, dropping a host CLSE from a forward stream's run changes no message and no read of it |
| EndToEnd.ConnectionRelay | src/main.rs:473-567 | Both relay results for one stream of a whole connection in any interleaving, open or closed |
| Forward.ForwardService.WriteInput | src/forward.rs:112-118 | Under any positive short writes the socket gains the whole payload, or the call fails and it gained the longest prefix it could take |
| Pull.PullRuns | src/main.rs:884-909 | With a disciplined host, over any run: at most one WRTE is unanswered, `waiting_for_okay` is set exactly while a file is sent, and the DATA bytes sent are a prefix of it |
| Pull.StepKeepsPull | src/main.rs:229-328 | An event keeps that invariant if and only if the host is disciplined in it: a request only when every WRTE is answered, unless it is met with silence, or (during a pull) is QUIT or a RECV that starts another |
| Pull.RequestWhileUnanswered | src/sync.rs:484-506 | With one WRTE unanswered and nothing being sent, a request keeps it if and only if it is QUIT or a part of a push that does not end it |
| Pull.StatDuringPull | src/sync.rs:484-531 | An LSTAT during a pull leaves two WRTEs unanswered |
| Pull.RequestWhileSending | src/sync.rs:484-506 | While a file is being sent, a request keeps that invariant if and only if it is QUIT or a RECV whose file opens |
| Pull.PullComplete | src/sync.rs:281-300 | When an error-free transfer ends, the payloads since the RECV are the whole file as DATA frames and one DONE |
| Pull.PullEndToEnd | src/main.rs:884-933 | A receiver fed those payloads in any pieces writes the same file and answers OKAY |
| Pull.PullTerminates | src/main.rs:884-909 | A host that keeps answering ends the transfer within (bytes left + 2) OKAYs |
| EndToEnd.ConnectionPull | src/main.rs:884-909 | The pull invariant for one stream of a whole connection in any interleaving |
| EndToEnd.ConnectionPullEnd | src/main.rs:884-933 | The end of an error-free pull there: the last bytes the stream has sent are exactly the file's DATA\* DONE stream, and a receiver fed them in any pieces writes the same file |
| Buffers.FirstFree | src/buffers.rs:22-26 | The lowest free slot |
| Buffers.BufferManager.Alloc | src/buffers.rs:21-38 | Takes the lowest free slot for an empty buffer and touches no other |
| Buffers.BufferManager.Free | src/buffers.rs:41-43 | Empties exactly the named slot |
| RingInvariants.LoopKeepsInv | src/main.rs:440-695 | In every state the loop reaches: occupied slots and pending bulk-in writes correspond one to one and each slot holds the bytes submitted; every pending tag is well-formed and names an id handed out; while it runs, exactly one bulk-out read is pending, a payload read if and only if a header waits |
| RingInvariants.WriteCompletion | src/main.rs:570-682 | A completed write, whatever its result, frees exactly its own slot, which until then held the bytes submitted |
| RingInvariants.CalmExactly | src/main.rs:519-685 | The branches marked unreachable and the payload without a header are: in a reachable state a completion can only go wrong by the event's own panic or a full pool |
| History.LoopIsRun | src/main.rs:464-690 | The loop's connection and messages are those of a run on the events it dispatches, so every result about runs holds of the loop |
| History.PayloadsChecked | src/main.rs:655-664 | Under V0 every payload dispatched has the checksum its header announced |
| Inbound.PayloadDispatched | src/main.rs:646-679 | A completed payload read is dispatched, as read and with the header that waited, if and only if V1 is in force or the header announced its byte sum |
| Inbound.HeaderDispatched | src/main.rs:585-627 | A completed header read is dispatched at once if it announces no payload, and waits otherwise |
| Inbound.NoHeaderDropped | src/main.rs:628-644 | What is no header is dropped and the loop reads on |
| Inbound.InboundFraming | src/main.rs:585-679 | The commands the loop dispatches are exactly the messages the host sent, in order and unchanged, whatever completions come between |
| Inbound.Handshake | src/main.rs:440-679 | A CNXN as first message of a new connection is dispatched without a panic and answered by exactly one CNXN in the version agreed on |
| Inbound.StopsExactly | src/main.rs:570-584 | The loop stops if and only if ep0 is disabled or fails, or a bulk-out read fails |
| Inbound.BackEndRead | src/main.rs:473-567 | A completed PTY or socket read sends exactly the bytes read in one WRTE; an end or error sends one CLSE and removes the stream |
| Inbound.LoopSends | src/main.rs:464-690 | Over the loop, what a shell or forward stream has written is exactly what its completed reads brought, up to the completion that closed it |
| History.VersionInForce | src/main.rs:209-226 | Every message carries the version in force, a CNXN response already the new one |
| Wire.DecodeOfEncode | src/message.rs:168-185 | A parser that reads a header and as many bytes as it announces undoes the concatenation of messages |
| Wire.OutboundFraming | src/main.rs:735-795 | Over whole runs the buffers pushed, in order, decode to exactly the messages submitted, with their commands, arguments, payloads, lengths and checksums, and each non-empty payload stands directly behind its own linked header |
| Connection.StreamManager.Open | src/stream.rs:89-140 | A started service gets the next id and a fresh entry; otherwise nothing changes |
| Connection.StreamManager.Close | src/stream.rs:147-149 | Removes exactly that stream |
| Connection.AdbConnection.SubmitMessage | src/main.rs:735-795 | Header and non-empty payload each take the lowest free slot and are pushed in order, the header linked |
| Connection.AdbConnection.HandleCommandCnxn | src/main.rs:203-226 | Does exactly what the state machine's CNXN step does to streams, version, buffers and queue |
| Connection.AdbConnection.HandleCommandOpen | src/main.rs:241-288 | Likewise for OPEN, with each refusal |
| Connection.AdbConnection.HandleCommandClse | src/main.rs:178-200 | Likewise for CLSE |
| Connection.AdbConnection.HandleCommandOkay | src/main.rs:229-238 | Likewise for OKAY |
| Connection.AdbConnection.HandleCommandWrte | src/main.rs:291-355 | Likewise for WRTE, acknowledgement first |
| Connection.AdbConnection.MaybeSubmitWrteSync | src/main.rs:884-909 | Sends the next frame only if the stream is not waiting, then waits; without a frame the session is idle |
| Connection.AdbConnection.FinishRead | src/main.rs:473-567 | A completed PTY or socket read does exactly what the state machine's step does |
| Connection.AdbConnection.HandleCompletion | src/main.rs:464-688 | One completion takes the objects to exactly the state the ring model dispatches to |
| Connection.AdbConnection.Run | src/main.rs:464-690 | The loop over any completions ends in exactly the modelled state |
| Connection.Serve | src/main.rs:440-690 | From a new connection on, every life of the loop ends in a modelled state in which the ring invariant holds |

## Left out

- Gadget and endpoint setup, passed file descriptors, the command line, logging and device identity (src/ffs.rs, src/device_info.rs, the daemon part of src/main.rs): plumbing; the CNXN payload is an opaque byte string.
- Spawning a shell, connecting a socket and rebooting: foreign calls; they succeed or fail as the event says, and a back end then takes bytes and gives bytes.
- AUTH and STLS: only logged by the source; here they do nothing.
- io_uring itself: operations complete in any order; only the order of submission is modelled, not the order of unlinked writes on the wire, the cancelling of a linked payload or the batching of completions.
- The panics of a full submission queue (32 entries; the model's is unbounded) and of an lstat result that does not fit 32 bits.
- Memory addresses, buffer lifetimes and drop order behind the source's unsafe blocks.
- The texts of error messages that quote the operating system: parameters of the environment.
- The host's advertised maximum payload: the source does not consult it, and nothing is claimed about it.
- Liveness that needs the host to keep sending OKAY (other than `Pull.PullTerminates`, which assumes it), and any bound under which eight slots suffice: the code decides neither.
- Connection.AdbConnection.HandleCompletion: sessions and back ends inside the stream table are values written back after use (`StreamManager.Set`), not objects lent by `get`; the objects `FileReceiver`, `FileSender` and `SyncServer` are proved against the same functions separately. It requires that nothing panics and that the pool has room, as the source assumes.
- Connection.AdbConnection.HandleCommandWrte: a write into a PTY or socket is one step with the bytes it accepted; the partial-write loop is proved in `Forward` for sockets.
- Receiver.FileReceiver.Receive: the file system is a disk with room for some number of bytes and yes-or-no answers to chmod, set_times and unlink; interrupted writes and other writers of the same file are not modelled. The file left by a stream closed mid-push is not tracked.
- Sender.FileSender.Next: the file does not change while it is sent.
- SyncService.SyncServer.HandlePayload: size and mtime of an lstat reply are assumed to fit 32 bits, and the path of a request does not pick the file, which the environment's answer does.
- Pull.PullRuns: once an event has broken the invariant, nothing is claimed of the rest of the run.
- Relay.HostClseInvisible: after the write side is shut down a real socket refuses further writes; the model leaves that to the environment's answer to each write.
- Push.PushEndToEnd: needs the whole SEND request in the first payload, as the source does, and a last payload that is not empty; a file that cannot be created is in `Requests.SendRefused`.

# WhaleVet: a verified model

WhaleVet sits between a build client and the Docker daemon. It rewrites the Dockerfile that the client
serves to the daemon, inside four nested encodings, while the daemon paces the transfer with HTTP/2 flow
control. This project models that machinery in Dafny and proves what it is for: the daemon decodes the
edited Dockerfile and otherwise exactly what the client sent, within the windows it granted, for every
interleaving.

`dafny verify dfyconfig.toml` checks the whole project (Dafny 4.11).

## How it is organised

- The codecs, innermost first: `Varint.dfy`, `Protobuf.dfy`, `Records.dfy` (the recursive rewriter of the
  pull filter), `Fsutil.dfy` (packets), `Grpc.dfy`, `Http2.dfy`, on top of `Bytes.dfy` and `Io.dfy` (readers
  with arbitrary short reads). Each code loop is a method proved against a parsing function; round trips and
  compositionality are lemmas about the functions. `Served.dfy` has the same in bytes: a file as a client serves it,
  and what comes of it.
- `Stream.dfy` is the stateful rewrite of one stream message by message, `Decoded.dfy` what that means for a
  receiver: decoding the output is editing the decoded input.
- `Headers.dfy` assembles header blocks and decides which streams are Dockerfile syncs, by the names in `Paths.dfy`.
- `Session.dfy` is the session splice as a state machine: each lock region, frame read and frame write of
  either pump is one step, and the pumps interleave freely. `Content.dfy`, `Settings.dfy`, `Ledger.dfy`,
  `StreamLedger.dfy`, `Progress.dfy` and `Marking.dfy` prove its invariants and what follows from them; `EndToEnd.dfy`
  composes them.
- `Forwarding.dfy` is about everything else that passes through, `Holding.dfy` about what is held back and why, and
  `Schedules.dfy` about delivery under every schedule.
- `Padding.dfy`, `Wakeups.dfy` and `Overdraft.dfy` say exactly when the three flow-control properties that the code
  does not have in full fail; `Limits.dfy`, with the edit of `Growth.dfy`, gives runs in which they do.
- `Splice.dfy` is the same splice as an object whose methods update its fields and buffers in place. A ghost copy
  of the machine follows it step by step (`Steps.dfy`), with `Interfere` standing for the other pump wherever
  the lock is not held, so `SpliceEnds.dfy` can state the theorems about the object's own bytes.
- `PullReader.dfy` and `PullStream.dfy` are the reader of the `/grpc` route and what it does to whole streams.
- `Policy.dfy` is the glob matcher and the image policy. `Text.dfy`, `Dockerfile.dfy`, `DockerfileLaws.dfy` (where what
  is injected stands), `DockerfileRules.dfy` (what it is), `CertChunks.dfy` and `EnvMerge.dfy` are the image side.

The names used for results: `Wire` is the bytes of a frame sequence, `PayloadOn(frames, sid)` the DATA bytes of a
stream, `Messages(bytes, cap)` the gRPC messages a byte string is the concatenation of, `Reachable` a state that
some schedule of both pumps leads to, `Run` the state after a given schedule.

## Hypotheses, and what holds without them

Each of these is decided by the code. Where one is needed, a lemma says exactly how far the result goes.

- One target. The stream window is a single field that every mark resets (internal/proxy/sessionsplice.go:171-177).
  `Ledger.StreamSafety` holds for the bytes since the last mark, and with one mark a stream stays within its credit
  (`StreamLedger.StreamWithinCredit`, and in the daemon's frames alone `Overdraft.OneMarkWithin`). For any number of
  marks `Overdraft.OverdrawnIff` is the exact condition, in every state of every run, and `Overdraft.PieceOverdrawsIff`
  at each write; `Limits.SecondMarkOverdraws` is a run with two in which a stream goes over. Connection flow control
  needs no such hypothesis.
- A mark wakes nobody, and other DATA waits for the same stream window. A writer asleep from before a mark is
  therefore excluded from `Ledger.NoLostWakeup`. `Wakeups.WakeupLostIff` and `Wakeups.LostWakeupIff` give the exact
  condition, for one step and for a whole run: a request for a Dockerfile completes while a writer sleeps, and the
  connection window and the initial window cover what it waits for. `Limits.MarkWakesNobody` is such a run, and
  `Progress.ForeignDataBeforeMark` says exactly what is granted before the first mark.
- Padding. Other DATA is accounted without its padding, while RFC 7540 section 6.9.1 counts it.
  `Padding.FlowWithinGrantPlusPadding` bounds the difference by the padding forwarded, so a client that pads no DATA
  stays within the grant (`Padding.UnpaddedWithinGrant`), and `Padding.WriteExceedsIff` is the exact condition at each
  write. `Limits.PaddingExceedsGrant` and `Limits.GrowthMakesPaddingExceed` are runs in which the daemon's window is
  exceeded, the second one with a client that keeps to the protocol.
- Plain headers: no priority fields, and a nonempty first fragment unless the block is whole
  (internal/proxy/sessionsplice.go:328-342). `Headers.IdentifiedIffPlain` shows that this is the exact condition.
- Streams on which DATA arrived before they were marked (`rawData`) are outside the content theorems.
  `Marking.MarkedBeforeForwarded` shows that a client that sends DATA only on streams whose headers it has received
  puts no Dockerfile stream there.
- A frame write succeeds as a whole or fails as a whole, and a failed connection stays failed.
- Rewritten payloads are shorter than 2^32 bytes (the length field truncates, see `Grpc.FrameIffLengthFits`), and
  lengths of byte slices are below 2^63.

## Where code and documentation differ

The model follows the code.

- The comment on the windows says both start at 65535 (internal/proxy/sessionsplice.go:144-150); the code leaves the
  stream window at 0 until a stream is marked (lines 159-163).
- Larger data is said to pass through untouched (internal/proxy/grpcfilter.go:23-26), and structural surprises to fail
  open (line 32). An oversized message ends the stream, a message cut short is dropped, and in tar mode an oversized
  message loses or reorders what was held: `PullStream.PlainOutput`, `PullStream.PassThroughExact`,
  `PullStream.OversizeLosesHeld`. When a tar stream comes through all the same is said exactly by
  `PullStream.ArchiveSurvivesIff` for the archive and by `PullStream.TarUnchangedIff` for the bytes.
- Only enough is said to be buffered to assemble a complete message (internal/proxy/sessionsplice.go:400-403). The
  buffer is parsed as a whole, so whole messages wait behind one that is not complete: `Holding.HeldBack` says exactly
  what is held.
- An input that ends right after a message header is a clean end for the reader, not an error
  (`PullReader.CutShort`).
- Held tar bytes are said to be flushed verbatim (internal/proxy/grpcfilter.go:110-112); the payload bytes are, but the
  message boundaries and flags of the held messages are not (`PullStream.TarConserves` speaks of payloads).
- Lines for "before_entrypoint" come after the first CMD or ENTRYPOINT line (internal/image/dockerfile.go:178-188),
  and commands for after the base are dropped if there is no FROM (`DockerfileLaws.BlocksExactlyOnce`).
- Later keys are said to win in `mergeEnv` (internal/image/env.go:82-84). For a key that the base has twice, the override
  replaces the first entry only (`EnvMerge.MergedLookup`).
- `?` is said to stand for a character (internal/proxy/policy.go:40-42); it stands for one byte.

## Model

| member | source | states |
|---|---|---|
| `Varints.VarintAt` | internal/proxy/grpcfilter.go:201-219 | the value and length of the varint at `b[i]`, or (0, 0) exactly when it is cut short or runs past bit 63 |
| `Varints.AppendVarint` | internal/proxy/grpcfilter.go:222-228 | appends the canonical encoding, seven bits a byte, lowest first |
| `Varints.EncodedIs` | internal/proxy/grpcfilter.go:222-228 | what is written is the number itself in base 128, lowest digit first, every byte but the last marked, without leading zeros |
| `Varints.NumberIff` | internal/proxy/grpcfilter.go:201-219 | there is a number exactly if one of the first ten bytes has no top bit; its value is the base-128 numeral up to there, cut to 64 bits |
| `Varints.VarintRoundTrip` | internal/proxy/grpcfilter.go:201-228 | decoding undoes encoding for every 64-bit value, in front of any bytes, and consumes exactly the encoder's bytes |
| `Varints.EncodingUnambiguous` | internal/proxy/grpcfilter.go:222-228 | two values never share an encoding, even as prefixes of longer messages |
| `Varints.VarintBound` | internal/proxy/grpcfilter.go:201-219 | every decoded value fits 64 bits, whatever bytes are decoded |
| `Varints.VarintPrefix` | internal/proxy/grpcfilter.go:201-219 | decoding depends on no byte beyond those it reports as consumed |
| `Protobuf.ParseFields` | internal/proxy/grpcfilter.go:269-318 | the index loop returns the field sequence of the message, or nil if it is malformed or empty |
| `Protobuf.FieldsPartition` | internal/proxy/grpcfilter.go:269-318 | the `orig` spans of the parsed fields, joined, are the message |
| `Protobuf.FieldsAppend` | internal/proxy/grpcfilter.go:269-318 | parsing is compositional: a parsable message in front contributes its own fields |
| `Protobuf.FieldAt` | internal/proxy/grpcfilter.go:269-318 | the bytes of each parsed field, alone, parse to that field |
| `Protobuf.EncodeLenField` | internal/proxy/grpcfilter.go:231-235 | tag, length and value in that order |
| `Protobuf.LenFieldParses` | internal/proxy/grpcfilter.go:231-235 | a re-encoded length-delimited field parses back to its number and value |
| `Protobuf.VarintFieldParses` | internal/proxy/grpcfilter.go:269-318 | a varint field on the wire, tag and number, is one field with that number as its value |
| `Protobuf.FixedFieldParses` | internal/proxy/grpcfilter.go:269-318 | a fixed field on the wire is one field: eight bytes for wire type 1, four for 5 |
| `Protobuf.FieldIff` | internal/proxy/grpcfilter.go:273-314 | behind any tag there is a field exactly if what its wire type asks for is there; groups and unknown types are refused |
| `Protobuf.PatchedParses` | internal/proxy/grpcfilter.go:260-265 | any choice of fields re-encoded around new values leaves a message that parses to the same fields with those values |
| `Protobuf.UnpatchedBytes` | internal/proxy/grpcfilter.go:260-265 | with nothing patched the fields join to the message |
| `Records.RewriteRecords` | internal/proxy/grpcfilter.go:325-372 | the recursive method computes the specified rewriting and its change flag |
| `Records.RewriteChildren` | internal/proxy/grpcfilter.go:331-341 | the first loop: every length-delimited child is replaced by its rewriting, if that changes it |
| `Records.RecordAt` | internal/proxy/grpcfilter.go:345-359 | the body of the record loop: the new content if the three fields are a Dockerfile record the edit changes |
| `Records.PatchRecords` | internal/proxy/grpcfilter.go:343-364 | the second loop: a record's edited content wins over what the recursion made of that field |
| `Records.RewriteEditsThroughout` | internal/proxy/grpcfilter.go:320-372 | at every nesting depth each Dockerfile record's content is the edited one and everything else is as it was, byte for byte where nothing in it changes |
| `Records.RewrittenParses` | internal/proxy/grpcfilter.go:320-372 | a changed message re-parses to as many fields with the same numbers and wire types; unpatched fields are byte-identical |
| `Records.ChangedIffDifferent` | internal/proxy/grpcfilter.go:325-372 | the change flag is set exactly if the bytes differ |
| `Records.NoOpEdit` | internal/proxy/grpcfilter.go:325-372 | an edit that changes no content leaves every message as it is |
| `Records.NamesDoNotParse` | internal/proxy/grpcfilter.go:239-245 | no Dockerfile name is itself a parsable message, so the recursion cannot damage one |
| `Records.RecordsStay` | internal/proxy/grpcfilter.go:343-362 | rewriting neither makes nor destroys file records |
| `Served.ServedRecord` | internal/proxy/grpcfilter.go:320-372 | any three length-delimited fields, in bytes: the second gets the edited content exactly if they are numbered 1, 2, 3, the first is one of the three Dockerfile names and the edit wants to change it; every other value is rewritten on its own account |
| `Served.OddAttributes` | internal/proxy/grpcfilter.go:343-353 | a third field that is not length-delimited makes no record |
| `Fsutil.ParseFSUTILStat` | internal/proxy/session.go:64-82 | path and size as the last such fields give them (by index in `Fsutil.ParsedStatIs`); refused for an oversized size or an empty path |
| `Fsutil.ParsedStatIs` | internal/proxy/session.go:64-82 | by index over the fields: the path is the value of the last field 1 of wire type 2, the size that of the last field 5 of wire type 0, or 0; there is no Stat exactly if some such size is over the signed 64-bit range or the path is empty |
| `Fsutil.ClassifyPacket` | internal/proxy/session.go:94-112 | the first Stat or Data field decides what the packet is |
| `Fsutil.PatchLenField` | internal/proxy/session.go:117-141 | every occurrence of the field replaced, or refusal if it is missing or of another wire type |
| `Fsutil.WithFieldParses` | internal/proxy/session.go:117-141 | the patched message re-parses to the same fields, each occurrence holding the new value |
| `Fsutil.FieldReplacedIff` | internal/proxy/session.go:117-141 | a field is replaced exactly if it occurs and is length-delimited wherever it does; numbers, wire types and all other fields stay |
| `Fsutil.RewriteDiffCopyData` | internal/proxy/session.go:151-168 | payload, lengths and flag for every combination of packet, Stat and edit |
| `Fsutil.DiffCopyMeaning` | internal/proxy/session.go:151-168 | a reported change is a Data packet holding the edited content, with all field-4 occurrences replaced; otherwise the payload is the input |
| `Fsutil.DiffCopyChangedIff` | internal/proxy/session.go:151-168 | the flag is set exactly if the bytes differ |
| `Fsutil.PacketAfter` | internal/proxy/session.go:94-141 | replacing field 4 of a Data packet leaves a Data packet with the new content |
| `Grpc.ParseGRPCMessages` | internal/proxy/session.go:29-45 | succeeds exactly on whole messages; its results are windows into the buffer, in order |
| `Grpc.GrpcFrame` | internal/proxy/session.go:48-54 | flag byte, 32-bit length (truncating), payload |
| `Grpc.ParsesIffJoined` | internal/proxy/session.go:29-45 | the parser succeeds exactly on concatenations of whole messages within the cap, and the split is unique |
| `Grpc.MessagesJoin` | internal/proxy/session.go:29-45 | joining the result of a parse gives the input back |
| `Grpc.MessagesOfJoin` | internal/proxy/session.go:29-45 | whole messages, joined, parse to themselves |
| `Grpc.MessagesAppend` | internal/proxy/session.go:29-45 | parse(a + b) is parse(a) followed by parse(b) when a parses |
| `Grpc.FrameIsMessage` | internal/proxy/session.go:48-54 | a framed payload within the cap is one message with those flags and that payload |
| `Grpc.MessageIsFrame` | internal/proxy/session.go:29-54 | a parsed message is the frame of its own flags and payload |
| `Grpc.FrameIffLengthFits` | internal/proxy/session.go:48-54 | framing gives a readable message exactly if the payload length fits 32 bits |
| `Stream.RewriteAt` | internal/proxy/sessionsplice.go:448-492 | each emitted message is determined by the message and the Stat remembered before it |
| `Stream.StatAfterIs` | internal/proxy/sessionsplice.go:448-492 | the remembered Stat is that of the most recent Stat-or-Data message, if it was a Stat; messages of other kinds do not clear it |
| `Stream.ChangedIffLicensed` | internal/proxy/sessionsplice.go:448-492 | a message is changed exactly if it is an uncompressed Data and the most recent Stat-or-Data before it is a Stat naming a Dockerfile of that size that the edit changes |
| `Stream.OneRewritePerStat` | internal/proxy/sessionsplice.go:448-492 | each Stat licenses at most one rewrite |
| `Stream.RewriteIsFramed` | internal/proxy/sessionsplice.go:475-483 | every emitted message is framed and keeps its flags |
| `Stream.RewriteAppend` | internal/proxy/sessionsplice.go:448-492 | rewriting in batches is rewriting the whole |
| `Served.ServedFile` | internal/proxy/sessionsplice.go:448-492 | a file in bytes, Stat (path 1, mode 2, size 5) and Data (type 1, content 4): the Data holds the edited content exactly if the name is one of the three, the content is as long as the Stat says and the edit wants it; else both come out as they went in |
| `Decoded.EditCommutes` | internal/proxy/sessionsplice.go:448-492 | decoding an emitted message gives the edited decoding of the original |
| `Decoded.EditAllCommutes` | internal/proxy/sessionsplice.go:448-492 | the same for a whole stream, with the Stat carried along |
| `Io.ReadFull` | internal/proxy/sessionsplice.go:279-287 | all `n` bytes for every sequence of short reads; EOF only if not one byte was left |
| `Http2.ReadH2F` | internal/proxy/sessionsplice.go:275-303 | the frame at the front of the bytes, padding stripped, or an error if it is cut short or its padding does not fit |
| `Http2.WireReadsBack` | internal/proxy/sessionsplice.go:275-303 | frames written one after the other are read back as the same frames |
| `Http2.MessageRoundTrip` | internal/proxy/sessionsplice.go:515-535 | for messages of any length: the frames read back are DATA frames on that stream of at most 16384 bytes whose payloads concatenate to the message |
| `Http2.ImageReadable` | internal/proxy/sessionsplice.go:275-303 | a frame image is read back with its type, flags, stream and unpadded payload |
| `Http2.PaddedReadable` | internal/proxy/sessionsplice.go:294-301 | any payload with a pad length in front and that much padding behind reads back as the payload (RFC 7540 section 6.1) |
| `Http2.BadPadding` | internal/proxy/sessionsplice.go:296-299 | padding that leaves no room for the pad length byte is refused |
| `Http2.ReservedBit` | internal/proxy/sessionsplice.go:288-293 | the stream identifier is the last four header bytes, big-endian, without the first bit; type and flags stand in front of it |
| `Http2.DataFrameReadable` | internal/proxy/sessionsplice.go:521-527 | an emitted DATA frame reads back on its stream with its payload, for every length 24 bits can express |
| `Http2.ChunksRebuild` | internal/proxy/sessionsplice.go:516-533 | the pieces are nonempty, at most 16384 bytes, and rebuild the message |
| `Headers.PlainBlocksIdentified` | internal/proxy/sessionsplice.go:327-344 | for every split into HEADERS and CONTINUATION, `identify` gets each full block once, in order, with its stream (RFC 7540 sections 4.3 and 6.10) |
| `Headers.IdentifiedIffPlain` | internal/proxy/sessionsplice.go:327-344 | it gets the protocol's blocks exactly if no HEADERS frame has priority fields or an empty first fragment |
| `Headers.BrokenOffBlocksJoin` | internal/proxy/sessionsplice.go:328-342 | fragments of a block that another HEADERS breaks off are handed over in front of that block |
| `Headers.Inspect` | internal/proxy/sessionsplice.go:366-379 | true exactly for the FileSync DiffCopy path with a followpaths header that selects a Dockerfile |
| `Headers.SyncIs` | internal/proxy/sessionsplice.go:366-379 | by index over the headers: the last `:path`, in any case, ends in the DiffCopy method, and some `followpaths` header has a comma-separated entry that selects a Dockerfile |
| `Headers.SelectsIs` | internal/proxy/sessionsplice.go:389-391 | quotes, then spaces, then any directory and trailing slashes taken off, an entry is one of the three names |
| `Headers.DockerfileInFollows` | internal/proxy/sessionsplice.go:386-396 | true exactly if some trimmed entry of some header has a Dockerfile base name |
| `Paths.BaseIsDockerfile` | internal/proxy/sessionsplice.go:390 | a path selects exactly if it is a Dockerfile name after any directory and before any trailing slashes |
| `Splice.SessionSplice.constructor` | internal/proxy/sessionsplice.go:159-163 | connection and initial window 65535, stream window 0, nothing marked |
| `Splice.SessionSplice.IsTarget` | internal/proxy/sessionsplice.go:165-169 | membership in the marked streams |
| `Splice.SessionSplice.MarkTarget` | internal/proxy/sessionsplice.go:171-177 | adds the stream and resets the stream window to the current initial window; wakes nobody |
| `Splice.SessionSplice.ApplyWindowUpdate` | internal/proxy/sessionsplice.go:180-192 | credits the connection, or the stream window if the stream is marked, and wakes the waiter in exactly those cases |
| `Splice.SessionSplice.ApplySettings` | internal/proxy/sessionsplice.go:196-209 | every whole entry in order; both windows shift by the same delta; the waiter is woken exactly by an initial window entry (what comes of it: `Settings.ConfiguredIs`) |
| `Settings.ConfiguredIs` | internal/proxy/sessionsplice.go:196-209 | by index over the whole six-byte entries: the initial window is the value of the last entry with id 4, the stream window moves by the difference; without such an entry nothing changes and nobody is woken |
| `Settings.InitialWindowIsDaemons` | internal/proxy/sessionsplice.go:196-209 | in every reachable state the initial window is the last one announced in the daemon's SETTINGS frames that acknowledge nothing, 65535 if there is none, and the ledger of lowerings is the daemon's |
| `Splice.SessionSplice.WaitWindow` | internal/proxy/sessionsplice.go:213-223 | comes back granted, the session open and both windows covering the bytes, or refused with the session closed, or still waiting; every earlier traced step stays |
| `Splice.SessionSplice.SpendWindow` | internal/proxy/sessionsplice.go:227-234 | takes the bytes from the connection window and, for a marked stream, from the stream window |
| `Splice.SessionSplice.MarkClosed` | internal/proxy/sessionsplice.go:238-243 | closes and wakes the waiter |
| `Splice.SessionSplice.IdentifyBlock` | internal/proxy/sessionsplice.go:360-380 | marks the stream exactly if the decoded headers ask for a Dockerfile; a decoding error marks nothing |
| `Splice.SessionSplice.TraceFrame` | internal/proxy/sessionsplice.go:326-351 | the switch on the frame type |
| `Splice.SessionSplice.UpstreamRead` | internal/proxy/sessionsplice.go:321-326 | goes on exactly if a whole readable frame is at the front of the daemon's bytes; it is traced before it is forwarded, and what is left is the rest of those bytes, or at the end a tail of them |
| `Splice.SessionSplice.PumpUpstream` | internal/proxy/sessionsplice.go:316-356 | run alone: the client gets a prefix of the daemon's bytes, unchanged; the session is closed at the end |
| `Splice.SessionSplice.Interfere` | internal/proxy/sessionsplice.go:246-259 | any number of upstream turns between two lock regions, writes or wakeups of the downstream pump keeps the object on a schedule of the machine |
| `Splice.SessionSplice.BuildFrame` | internal/proxy/sessionsplice.go:521-527 | the wire image of a DATA frame, filled in place |
| `Splice.SessionSplice.WritePiece` | internal/proxy/sessionsplice.go:515-535 | one frame: refused, failed or written whole, with the other pump free to run before, between and after the wait, the write and the accounting |
| `Splice.SessionSplice.WriteMessage` | internal/proxy/sessionsplice.go:515-535 | success writes exactly the frames of the message; otherwise what was written is the first of those frames |
| `Splice.SessionSplice.NoteStat` | internal/proxy/sessionsplice.go:464-475 | a Stat is stored, a Data takes the stored Stat out |
| `Splice.SessionSplice.EmitOne` | internal/proxy/sessionsplice.go:448-492 | one message: looked into, noted, edited if licensed, and written: the first frames of the message emitted for it, all of them when nothing fails; a failed Stat is ignored |
| `Splice.SessionSplice.EmitMessages` | internal/proxy/sessionsplice.go:448-492 | all messages in order: when nothing fails, what is written is the frames of the rewrite of the parsed messages; the slices still hold those although the buffer was reset before |
| `Splice.SessionSplice.StoreAndParse` | internal/proxy/sessionsplice.go:413-426 | the payload joins its stream's buffer; if it ends on a message boundary the buffer is emptied and its messages handed out; other buffers are untouched |
| `Splice.SessionSplice.ForwardFrame` | internal/proxy/sessionsplice.go:431-441 | other frames go out as they came, DATA after a wait for the windows |
| `Splice.SessionSplice.PumpDownstream` | internal/proxy/sessionsplice.go:404-443 | from start to end the fields follow a schedule of the machine that extends the one so far, and the session is closed at the end |
| `Splice.ByteBuffer.Write` | internal/proxy/sessionsplice.go:415-419 | the contents grow at the end; the storage is kept or replaced by fresh storage |
| `EndToEnd.DaemonReadsFrames` | internal/proxy/sessionsplice.go:275-303 | in every reachable state the daemon reads back exactly the frames written |
| `EndToEnd.EveryMoment` | internal/proxy/sessionsplice.go:404-535 | at every moment of every run, failed or not: the client's bytes are whole messages, the buffer and the payload in hand, and what was sent is a prefix of the rewrite of those messages, short by exactly the part in hand |
| `EndToEnd.DaemonDecodesEdit` | internal/proxy/sessionsplice.go:404-535 | for every split into DATA frames, interleaving and credit schedule, the daemon decodes the edited decoding of the client's whole messages; the rest is in the buffer |
| `EndToEnd.BoundaryFlushes` | internal/proxy/sessionsplice.go:420-427 | if the client's bytes end on a message boundary nothing is held back |
| `EndToEnd.WholeStream` | internal/proxy/sessionsplice.go:404-535 | client bytes that end on a message boundary arrive as the rewrite of the whole stream |
| `EndToEnd.DockerfileStreamIsEdited` | internal/proxy/sessionsplice.go:316-535 | the same from the protocol's side: a client that obeys, plain headers, a request for a Dockerfile |
| `EndToEnd.NonInterference` | internal/proxy/sessionsplice.go:404-535 | in any two states of any two runs, failed or not and in the middle of a frame or not: if the client's bytes on a stream in one are a prefix of those in the other, the bytes sent to the daemon on it are a prefix of each other one way or the other; splits, other streams, credit and timing decide how much is sent, never what |
| `EndToEnd.SameBytesSame` | internal/proxy/sessionsplice.go:404-535 | with both runs between frames, nothing failed and the bytes ending on a message boundary, the same client bytes give the same bytes to the daemon |
| `Holding.HeldBack` | internal/proxy/sessionsplice.go:413-429 | exactly what is held back, in every reachable state: the messages taken end at the last frame end that was also a message boundary, and the buffer holds all that came behind it, whole messages included |
| `Holding.SameSplitSame` | internal/proxy/sessionsplice.go:404-535 | the split is all that decides the amount: two runs whose frames on the stream end at the same bytes send the same bytes on it, once both are between frames with nothing failed |
| `Forwarding.OthersVerbatim` | internal/proxy/sessionsplice.go:43-47 | the client's frames other than data of marked streams reach the daemon unchanged and in order, with none left out: those written are the first of those read, and all of them between two client frames |
| `SpliceEnds.ClientSeesDaemon` | internal/proxy/sessionsplice.go:316-356 | at every moment the bytes written to the client are a prefix of the daemon's |
| `SpliceEnds.DaemonSeesFrames` | internal/proxy/sessionsplice.go:404-535 | at every moment the bytes written to the daemon are whole frames within its connection window |
| `SpliceEnds.DaemonSeesOthers` | internal/proxy/sessionsplice.go:404-443 | the same on the object's bytes: data of marked streams aside, the frames read back from the daemon's bytes are the first of the client's, and all of them between two client frames |
| `SpliceEnds.DaemonGetsEdit` | internal/proxy/sessionsplice.go:404-535 | the end-to-end theorem about the object's own input and output bytes |
| `StreamContent.RunKeepsContent` | internal/proxy/sessionsplice.go:404-535 | the content invariant holds along every run |
| `StreamContent.UpSameContent` | internal/proxy/sessionsplice.go:316-356 | no upstream step changes anything the stream content depends on |
| `Ledger.ConnectionSafety` | internal/proxy/sessionsplice.go:156-234 | DATA bytes sent never exceed 65535 plus all connection credit, and the connection window is never negative, not even between a write and its accounting (RFC 7540 sections 6.9.1 and 6.9.2) |
| `Ledger.StreamSafety` | internal/proxy/sessionsplice.go:171-234 | after a mark the stream window is initial window plus credit minus spending; with one mark it is overdrawn, also under a granted wait, by at most what SETTINGS has lowered the initial window by |
| `Ledger.NoLostWakeup` | internal/proxy/sessionsplice.go:213-223 | a writer asleep since the last mark has a short window and an open session |
| `Ledger.TraceEffect` | internal/proxy/sessionsplice.go:327-351 | one traced frame moves the connection window by exactly its grant |
| `StreamLedger.StreamWithinCredit` | internal/proxy/sessionsplice.go:171-234 | for the one marked stream the ledger counts exactly its bytes on the wire; they exceed the initial window that the daemon's frames announced last plus the credit since the mark by at most what those frames have lowered it by (RFC 7540 section 6.9.2) |
| `Overdraft.OverdrawnIff` | internal/proxy/sessionsplice.go:171-234 | for any number of marks: a marked stream has been sent more than the initial window the daemon announced last and its own credit exactly if what it was ahead at the last mark, the balance of the other marked streams since and what is not charged yet exceed the window left (RFC 7540 sections 6.9.1 and 6.9.2) |
| `Overdraft.OneMarkWithin` | internal/proxy/sessionsplice.go:171-234 | with one mark, in terms of the daemon's frames alone: the stream is sent at most the initial window announced last, its WINDOW_UPDATEs, and what SETTINGS lowered the initial window by |
| `Overdraft.PieceOverdrawsIff` | internal/proxy/sessionsplice.go:515-535 | the same at the write of a piece, the guard that is missing there |
| `Overdraft.OthersPay` | internal/proxy/sessionsplice.go:213-234 | a piece that the window covers overdraws its stream only if that stream was ahead at the last mark or the others have brought in more than they took |
| `Progress.DriveStops` | internal/proxy/sessionsplice.go:404-535 | left alone, the downstream pump comes to rest in finitely many steps |
| `Progress.EnoughWindowDelivers` | internal/proxy/sessionsplice.go:515-535 | from any reachable state in which both windows cover what is in hand, a frame just read included, the pump can by itself send all of it, rewritten, and takes exactly that from the connection window |
| `Progress.EnoughCreditDelivers` | internal/proxy/sessionsplice.go:213-234 | in totals, with one mark: if all credit granted covers what was spent and is still in hand, everything parsed can be delivered whatever the pump is doing, asleep or not; excluded are only writers of other streams that slept through the mark |
| `Schedules.EveryScheduleDelivers` | internal/proxy/sessionsplice.go:316-535 | delivery under every schedule: whatever daemon frames come between that neither close nor take from the stream window, the pump can always go on, needs a number of steps fixed at the outset, and then has written exactly what it would have written alone, everything parsed and rewritten |
| `Schedules.HarmlessUnless` | internal/proxy/sessionsplice.go:171-209 | which daemon frames these are: all but those that lower the initial window, or mark a stream while the stream window is above it |
| `Progress.AsleepMeansShortCredit` | internal/proxy/sessionsplice.go:213-223 | a sleeping writer of target data has been granted less than it needs to finish its message |
| `Progress.ClosedIsFinal` | internal/proxy/sessionsplice.go:213-243 | once the session is closed no wait is granted any more |
| `Progress.ClosedEmits` | internal/proxy/sessionsplice.go:448-492 | in a closed session nothing of the messages in hand is written: the pump reads on if they are all Stats and ends at the first that is not |
| `Progress.OthersNeverWait` | internal/proxy/sessionsplice.go:431-441 | all frames but DATA, and DATA of stream 0 or without payload, go straight through whatever the windows are |
| `Progress.ForeignDataBeforeMark` | internal/proxy/sessionsplice.go:159-163 | before the first mark, other DATA is granted exactly if it fits the connection window and what SETTINGS has added to the initial window |
| `Progress.ForeignDataGranted` | internal/proxy/sessionsplice.go:213-223 | after any number of marks, other DATA is granted exactly if it fits the connection window and what the marked streams have been granted since the last mark and not used up |
| `Padding.FlowWithinGrantPlusPadding` | internal/proxy/sessionsplice.go:433-437 | in the protocol's count, what is sent is the splice's count and the padding forwarded, and exceeds the grant by at most that padding |
| `Padding.PadOnWire` | internal/proxy/sessionsplice.go:294-301 | what RFC 7540 section 6.9.1 counts of a readable frame is its payload, and with the PADDED flag the pad length byte and the padding it declares |
| `Padding.UnpaddedWithinGrant` | internal/proxy/sessionsplice.go:433-437 | for a client that sets PADDED on no DATA frame the daemon's connection window is never exceeded |
| `Padding.GrantExceededIff` | internal/proxy/sessionsplice.go:433-437 | on an unbroken connection the grant is exceeded exactly if the padding forwarded is more than the connection window left, corrected for the frame in hand |
| `Padding.WriteExceedsIff` | internal/proxy/sessionsplice.go:433-441 | the write of a frame exceeds the grant exactly if the padding so far and its own are more than the connection window left |
| `Limits.PaddingExceedsGrant` | internal/proxy/sessionsplice.go:433-437 | one padded frame can exceed it: a concrete run |
| `Limits.GrowthMakesPaddingExceed` | internal/proxy/sessionsplice.go:433-437 | so can a client that keeps to the protocol: a run in which the edit makes a Dockerfile large and the client's one small padded frame then goes over the grant |
| `Limits.SecondMarkOverdraws` | internal/proxy/sessionsplice.go:171-177 | the one-target hypothesis is needed: a run in which a second mark refills the stream window and the first stream is sent more than its initial window and credit |
| `Limits.MarkWakesNobody` | internal/proxy/sessionsplice.go:171-177 | for every header block that is decoded as a Dockerfile request, a run in which that request leaves a writer of another stream asleep with both windows open |
| `Wakeups.OversleepsAfter` | internal/proxy/sessionsplice.go:171-223 | what any upstream step does to a sleeping writer: it is left asleep with both windows open exactly by a mark that the windows cover, or by a step that neither marks nor broadcasts if it was so before |
| `Wakeups.WakeupLostIff` | internal/proxy/sessionsplice.go:171-223 | a step loses a wakeup exactly if it completes a Dockerfile request while the writer sleeps and the connection window and the initial window cover what it waits for |
| `Wakeups.LostWakeupIff` | internal/proxy/sessionsplice.go:171-223 | a run ends with a writer asleep and both windows open exactly if some step of it was such a mark and none since has marked or broadcast |
| `Marking.ForwardedVerbatim` | internal/proxy/sessionsplice.go:321-355 | the frames sent to the client are those read from the daemon, in order, short of at most the one being written |
| `Marking.TargetsAreMarked` | internal/proxy/sessionsplice.go:360-380 | the marked streams are exactly those some identified block asks a Dockerfile for |
| `Marking.MarkedBeforeForwarded` | internal/proxy/sessionsplice.go:316-356 | with a client that sends DATA only on streams whose headers it has received, no DATA of a Dockerfile stream is ever forwarded raw |
| `PullReader.GrpcRewriteReader.constructor` | internal/proxy/grpcfilter.go:45-51 | tar mode is on exactly if there is a target whose path contains `FileSend/DiffCopy` |
| `PullReader.GrpcRewriteReader.Read` | internal/proxy/grpcfilter.go:58-75 | for every buffer size: the bytes handed out are taken off the front of all that is pending; EOF only when nothing is; an unexpected end is reported once, exactly for input that is cut short |
| `PullReader.GrpcRewriteReader.NextMessage` | internal/proxy/grpcfilter.go:79-108 | one message taken in, all pending bytes accounted for |
| `PullReader.GrpcRewriteReader.RewriteMessage` | internal/proxy/grpcfilter.go:157-172 | untouched without a target, if compressed, or for the packet paths; on every other path each Dockerfile record in the payload is edited, at every depth, and nothing else |
| `PullReader.PayloadPassedOn` | internal/proxy/grpcfilter.go:157-172 | the same of the payload the output theorems speak of |
| `PullReader.GrpcRewriteReader.HandleTarMessage` | internal/proxy/grpcfilter.go:113-128 | held back while within the cap; past it all that is held goes out, and then every message as it is |
| `PullReader.GrpcRewriteReader.FinishTar` | internal/proxy/grpcfilter.go:139-152 | the rewritten archive goes out in pieces; nothing if there is none or the cap was hit |
| `PullReader.ChunkAsBytesMessages` | internal/proxy/grpcfilter.go:176-188 | pieces of at most 32768 bytes, framed with flag 0 |
| `PullStream.ReadAll` | internal/proxy/grpcfilter.go:58-75 | reading to the end with any buffer sizes delivers exactly what is pending, with one error exactly if the input is cut short |
| `PullStream.InputSplits` | internal/proxy/grpcfilter.go:79-95 | every input is whole messages followed by a rest that does not begin with one |
| `PullStream.PlainOutput` | internal/proxy/grpcfilter.go:79-108 | any input outside tar mode: the rewrite of each whole message, then what there is of a message over the cap; the rest is dropped |
| `PullStream.WellFormedOutput` | internal/proxy/grpcfilter.go:79-108 | a well-formed stream: as many messages, with the same flags, and no error; each payload is the input without a target, if compressed or on a packet path, and otherwise that payload with every Dockerfile record edited at every depth |
| `PullStream.CutShortIff` | internal/proxy/grpcfilter.go:79-95 | the input is reported as cut short exactly if behind its whole messages there is something other than a message over the cap or a bare header |
| `PullStream.PassThroughExact` | internal/proxy/grpcfilter.go:82-95 | when nothing is edited the output is a prefix of the input, and the input itself exactly if that is whole messages, with at most one over the cap at the very end |
| `PullStream.TarConserves` | internal/proxy/grpcfilter.go:113-136 | at every message boundary the payloads sent followed by the bytes held are the payloads taken in, across the switch to passing through, which happens exactly past the cap |
| `PullStream.TarStream` | internal/proxy/grpcfilter.go:113-152 | the payloads that go out are the rewritten archive if the cap was never hit, and exactly the archive that came in otherwise |
| `PullStream.OversizeLosesHeld` | internal/proxy/grpcfilter.go:85-90 | any tar input with a message over the cap, in bytes: what was held is lost if that message is complete and comes out behind it if it is cut short |
| `PullStream.TarOutput` | internal/proxy/grpcfilter.go:79-152 | any tar input: the messages sent while reading, then what there is of a message over the cap, then the rewritten archive unless that message was complete; payloads sent and bytes held are the archive that came in |
| `PullStream.TarDelivered` | internal/proxy/grpcfilter.go:79-152 | what a receiver gets from any tar input: the archive rewritten below the cap and as it is past it, and nothing if a message over the cap comes while bytes are held back |
| `PullStream.ArchiveSurvivesIff` | internal/proxy/grpcfilter.go:82-95 | the archive is delivered exactly if no message over the cap follows it, or it was past the cap already, or there is nothing to deliver |
| `PullStream.TarUnchangedIff` | internal/proxy/grpcfilter.go:79-152 | when a tar input passes byte for byte, said of the input alone: below the cap exactly if it is whole messages cut as the filter cuts them around an archive the rewriting leaves alone, or one message over the cap and nothing else; past the cap exactly if the messages before the one that passes it are cut that way and the end is clean |
| `PullStream.PiecesCarry` | internal/proxy/grpcfilter.go:176-188 | the pieces are messages and carry the archive |
| `PullStream.PiecesAt` | internal/proxy/grpcfilter.go:176-188 | by index: an archive is cut at every multiple of 32768 bytes and nowhere else, each piece behind flag 0 and its length |
| `Policy.GlobMatch` | internal/proxy/policy.go:43-81 | true exactly if the reference is a row of parts, one for each token: any run for `**`, a run without '/' for `*`, one byte other than '/' for `?`, the byte itself otherwise; leaving the loop at '/' loses nothing |
| `Policy.NoMoreSplits` | internal/proxy/policy.go:62-69 | past a '/' no part fits `*` |
| `Policy.LiteralMatchesItself` | internal/proxy/policy.go:72-77 | a pattern without wildcards matches itself and nothing else |
| `Policy.StarsAlone` | internal/proxy/policy.go:51-71 | `**` matches everything, `*` exactly what has no '/' |
| `Policy.OneByteMore` | internal/proxy/policy.go:72-77 | `?` stands for exactly one byte, which is not '/' |
| `Policy.LiteralFront` | internal/proxy/policy.go:43-81 | a literal front of a pattern is matched by itself alone, and the rest of the pattern decides the rest |
| `Policy.Below` | internal/proxy/policy.go:43-81 | a literal name and `**` is everything that begins with it, with `*` everything on its level |
| `Policy.MatchAny` | internal/proxy/policy.go:31-38 | true exactly if some pattern matches |
| `Policy.PolicyAllowed` | internal/proxy/policy.go:15-29 | the verdict for every configuration and reference, and the reason when refused |
| `Policy.OnlySetsMatter` | internal/proxy/policy.go:15-29 | the verdict depends only on which patterns there are |
| `Policy.TreePolicy` | internal/proxy/policy.go:15-29 | a policy of whole trees (a literal name and `**`) admits exactly what the proxy made, and what is in no denied tree and, if any are listed, in an allowed one |
| `Text.JoinSplit` | internal/image/dockerfile.go:50-53 | lines split at newlines join back to the text |
| `Text.SortedKeys` | internal/image/dockerfile.go:30-35 | all keys, once each, in byte order |
| `Text.LeIs` | internal/image/dockerfile.go:30-35 | byte order: a prefix comes first, and otherwise the first difference decides |
| `Text.EnumerationUnique` | internal/image/dockerfile.go:27-41 | there is only one such list, so no map order shows |
| `Dockerfile.ParseDockerfile` | internal/image/dockerfile.go:50-69 | one classified line for each line of the text |
| `DockerfileRules.ClassifyIs` | internal/image/dockerfile.go:50-69 | a line is FROM, CMD or ENTRYPOINT exactly by its first word in any case, FROM alone also in front of a tab; no line is two of them |
| `Dockerfile.SortedEnvLines` | internal/image/dockerfile.go:30-41 | KEY=value for each key in key order: a function of the map, whatever order the map is iterated in |
| `DockerfileRules.EnvLinesLookup` | internal/image/dockerfile.go:30-41 | a process started with these lines sees each variable with its value, and no other |
| `Dockerfile.EnvBlockLines` | internal/image/env.go:46-66 | one folded ENV exactly if no value needs a line of its own |
| `DockerfileRules.EnvBlockIs` | internal/image/env.go:46-66 | given names and values: the mark and one folded ENV if no value has a blank, tab, line break, quote or backslash, else a mark and an ENV line for each |
| `Dockerfile.RenderEnvKVs` | internal/image/env.go:69-80 | only the value part is rendered |
| `DockerfileRules.RenderedIs` | internal/image/env.go:69-80 | given name and value: the name stays, the value is rendered; an entry without = stays |
| `DockerfileRules.AllRendered` | internal/image/env.go:69-80 | and so for every entry of a list, each in its place |
| `Dockerfile.CollectRules` | internal/image/dockerfile.go:92-133 | the rules sorted by what and where they inject, in order (read off the rules in `DockerfileRules.PlanIs`) |
| `DockerfileRules.PlanIs` | internal/image/dockerfile.go:102-133 | for any rules: the commands for before_entrypoint are those of the run rules whose lowered position says so, those for after the base those of the other run rules; likewise the variables; `from` rules as they are; certificates and the variables that come with them |
| `DockerfileRules.PlanPicks` | internal/image/dockerfile.go:102-133 | each of these lists is of exactly the rules it is for, at increasing indices |
| `DockerfileRules.BlocksAre` | internal/image/dockerfile.go:150-206 | the three blocks in terms of the rules: RUN lines before variables, certificate lines before theirs, rendered behind a FROM only; nothing where no rule asks for anything |
| `DockerfileRules.ReplacedIs` | internal/image/dockerfile.go:146-151 | a FROM line goes through the `from` rules one after the other, the first one first |
| `Dockerfile.InjectLines` | internal/image/dockerfile.go:145-206 | the line loop with its flags and what follows it give the output described line by line |
| `Dockerfile.Modify` | internal/image/dockerfile.go:89-209 | the modified Dockerfile for any rules |
| `DockerfileLaws.InputLinesKept` | internal/image/dockerfile.go:150-166 | erasing the injected lines leaves every input line in order, FROM lines passed through the `from` rules |
| `DockerfileLaws.ErasingUndoes` | internal/image/dockerfile.go:89-209 | without `from` rules, erasing the injected lines gives the Dockerfile back exactly |
| `DockerfileLaws.BlocksExactlyOnce` | internal/image/dockerfile.go:150-206 | the after-base block is there once if there is a FROM and else not at all, the certificates once, the before_entrypoint block once |
| `DockerfileLaws.BehindFirstFrom` | internal/image/dockerfile.go:161-176 | the after-base block and the certificates stand directly behind the first FROM |
| `DockerfileLaws.BehindFirstLast` | internal/image/dockerfile.go:178-188 | the before_entrypoint block stands directly behind the first CMD or ENTRYPOINT |
| `DockerfileLaws.AtTheEnd` | internal/image/dockerfile.go:190-206 | every input line comes first, then without CMD or ENTRYPOINT the before_entrypoint block, then without FROM the certificates; what comes here does not occur earlier |
| `DockerfileLaws.NoRulesIdentity` | internal/image/dockerfile.go:89-209 | without rules, or with unknown kinds only, the text comes back unchanged |
| `CertChunks.ChunkLines` | internal/image/cacerts.go:116-123 | the chunk loop: a line that writes, then lines that append |
| `CertChunks.ChunksAt` | internal/image/cacerts.go:112-123 | by index: the text is cut at every multiple of 57344 bytes and nowhere else; the first line writes, the others append |
| `CertChunks.InlineWritePayloadLines` | internal/image/cacerts.go:112-126 | the chunk lines and the line that decodes; the staging file is named after the base name of the target |
| `CertChunks.ChunksRebuild` | internal/image/cacerts.go:112-146 | read by a shell tokenizer and executed over any files, the chunk lines rebuild any nonempty text, make the staging directory and touch nothing else |
| `CertChunks.PayloadInstalled` | internal/image/cacerts.go:112-126 | executed, the lines leave the decoded payload under its target with mode 644 and take the staging file away; for empty content the build fails exactly if no staging file is there |
| `CertChunks.WriteLinesFit` | internal/image/cacerts.go:228-233 | every write line is at most 65535 bytes for file names of at most 255 |
| `EnvMerge.MergeEnv` | internal/image/env.go:85-119 | the base in order, each override at the first occurrence of its key, then the new keys sorted: no map order shows |
| `EnvMerge.OverIsLookup` | internal/image/env.go:86-93 | the overrides as a map say what looking them up says: the last entry with = for a key, and its value alone |
| `EnvMerge.MergeInFull` | internal/image/env.go:85-119 | a merge in full, for all keys and values: kept, overridden in place, added at the end |
| `EnvMerge.OverrideBase` | internal/image/env.go:96-108 | each base entry overridden at the first occurrence of its key; what is left is exactly the keys the base does not have |
| `EnvMerge.MergedLookup` | internal/image/env.go:83-119 | for any base: an override takes effect exactly unless its key occurs twice in the base, in which case the last base entry still counts |
| `EnvMerge.OverrideLookup` | internal/image/env.go:83-119 | for any base and overrides, by lookup alone: the override counts unless the base has its key twice, else the base |
| `EnvMerge.OverrideElseBase` | internal/image/env.go:82-119 | on a base with distinct keys, looking a key up in the merged list is looking it up in the overrides, and in the base if it is not there |
| `EnvMerge.MergeIdempotent` | internal/image/env.go:85-119 | on a base with distinct keys a second merge changes nothing |

## Left out

- HPACK decoding: a parameter that gives the header list of a block, or an error, from the blocks before it and the block.
- Sockets, `bufio`, TLS, the upgrade handshake and prefaces of `serveSession` and `run`: sources deliver fixed bytes in arbitrary pieces, sinks accept a frame or fail. Closing both connections when one pump ends shows only as later failures.
- Windows are unbounded integers; an overflow of a 64-bit counter is not modelled.
- The END_STREAM flag and padding of target DATA: the code drops both when it rebuilds frames, and the model says nothing about how the stream ends.
- The mutex and the condition variable are modelled by their effect: lock regions are atomic, and a woken waiter checks again before it goes on.
- Splice.SessionSplice.WaitWindow: a writer that is never woken, or woken for ever without credit, has the outcome `Unseen` instead of running on; the fields then follow the schedule up to a state in which the writer is still waiting, and the run is not continued from there.
- Splice.SessionSplice.PumpUpstream: run alone, with no lock region of the other pump inside it; the runs of both pumps together are those of `PumpDownstream`, where `Interfere` takes any number of upstream turns wherever that pump does not hold the lock.
- Splice.SessionSplice.UpstreamRead: of a frame that is cut short, or whose padding is unsound, it says that the bytes are gone but not how many of them were read.
- Log messages, and the content lengths reported only for them.
- The archive format: `rewriteTar` is a function given from outside; so are base64, regular expressions, templates, case mapping and trimming in `Dockerfile.Modify`, and the edit itself. An invalid `from` pattern, at which the code panics, is not modelled.
- Read errors other than the end of the data in the `/grpc` reader; closing it.
- CertChunks.InlineWritePayloadLines: the shell that reads the lines back knows blanks, single quotes, `&&`, `>` and `>>` and the five commands used; file names are taken literally and are for it nonempty words without blanks that are not `&&` and do not begin with a quote. That a redirection needs its directory is not modelled.
- The last line of `inlineCertWriteLines`, `certBlockCount`, and the install, update and awk scripts: shell text without an interpreter here; the chunk loop it shares is `CertChunks.ChunkLines`.
- `GenerateCACertDockerfileLines` and the choice of certificate files: the certificate step is one block of given lines.
- What Docker makes of a folded ENV line and of `$` in it.
- `commit.go`, `http.go`, `buildkit.go`, `h2c.go`, the configuration loader, the cache and the commands: plumbing over libraries that are not part of this model.

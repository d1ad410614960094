# FeatherDesk: a verified model

FeatherDesk captures a Linux desktop, encodes it as H.264, and streams video and audio over
WebSockets to browsers; one browser, the controller, sends keyboard and mouse events back. This
project models the parts of it that hold state or transform bytes, in Dafny, and proves what they
guarantee over all inputs, all runs and all interleavings. `dafny verify dfyconfig.toml` checks it.

How the models are built:

- Code that updates state in place is a class or a method on an array, proved against a function
  of the old state; the properties are lemmas about that function. Whole runs are methods too
  (`DmaBuf.Session`, `Encoder.Session`, `Broadcast.BroadcastRun`, `Input.HandleAll`).
- The server with its goroutines is a state machine (`ServerProtocol`): one program counter per
  connection, one video and one audio broadcaster, atomic steps. A schedule is any list of steps,
  a step its program counter does not allow changes nothing, and theorems speak of the state after
  any schedule. `sync.Map.Range` is not a snapshot: a client that stays registered during the call
  is visited, one that joins or leaves during it may be.
- What the operating system, the GPU, ffmpeg, the network and other goroutines do is an input:
  the list of reads, the failures, the chunks a consumer takes between two channel operations.
  Everything else in a run is a function of these inputs.
- Machine integers are explicit where they matter: `uint32(len(nal))`, the 64-bit counters,
  `int32` conversions, the negation in `itoa`, the 32-bit sum and byte truncation of the blend.

What turned out different from what one might expect, each with an exact condition or a witness:

- The limit of 25 clients stated in the repository's README.md:58 is kept by every schedule
  exactly when at most one upgrade at a time is between the check and the increment; with `k` of
  them, 24 + `k` clients get in (`ServerAdmission.LimitHoldsIffSerialised`).
- A new client is not guaranteed to get the cached IDR first: a broadcast can reach it between its
  registration and the cached send (`ServerFrames.FirstMessageMayPrecedeIDR`). In every schedule it
  starts with an IDR exactly when none does, or the first that does is an IDR
  (`ServerOrder.StartsWithIdrIff`).
- A chunk of the splitter can hold several NAL units separated by three-byte codes; then the
  browser may see a key frame that the server does not cache (`Keyframe.ReadersDiffer`).
- An empty last payload is lost with its start code at end of stream
  (`AnnexB.JoinSplitRoundTrip`, an if-and-only-if).
- A payload of 4 GiB or more is cut short by its size field (`Protocol.FramingRoundTrip`).
- When writes to the input device fail, the kernel still sees whole reports exactly when no failure
  comes after the first write of a report (`InputReplay.WholeIffNoneCutShort`).
- `itoa` prints the smallest `int` as a lone sign (`Itoa.ReadsBackUnlessMin`).
- The cursor blend panics exactly when a pixel it looks at is missing from the cursor image or a
  pixel it draws is missing from the frame (`Cursor.BlendCursor`).
- A second `Close` of the KMS capturer is safe exactly when no cursor descriptor was held; else it
  closes a number that is no longer its own (`DmaBuf.KMSCapturer.Close`).
- Any call on an `FFmpegEncoder` after `Close`, a second `Close` included, sends on or closes a
  closed channel (`Encoder.SafeIffNothingAfterClose`).
- The comment at compositor.js:113-114 promises a scan for IDR slices; it holds exactly when the
  server's test accepts some suffix of the data (`Keyframe.DetectH264Keyframe`).

Files follow the repository: `AnnexB`, `OpenH264`, `EncoderRun` and `Encoder` for internal/encode;
`Broadcast`, `ClientQueue`, `Itoa`, `Keyframe` and the eight `Server*` files for internal/server;
`Protocol` for internal/protocol; `Cursor` and `DmaBuf` for internal/capture; `AudioCapture` for
internal/audio; `Worklet` and `AudioPath` for the browser's audio; `Input`, `InputReplay` and
`Keymap` for internal/input. `Basics` and `Binary` hold shared vocabulary.

## Model

| member | source | states |
|---|---|---|
| AnnexB.FindCodeLeftmost | internal/encode/ffmpeg.go:172-176 | the search from offset 4 misses no start code and returns the first one |
| AnnexB.CodeAtMeans | internal/encode/ffmpeg.go:140 | the code looked for is the four bytes 0, 0, 0, 1 |
| AnnexB.AfterNothing | internal/encode/ffmpeg.go:166-175 | stopping below eight bytes never hides a match: there is no code to find |
| AnnexB.ExtractNALs | internal/encode/ffmpeg.go:164-187 | consumes the shared buffer exactly as the specification cuts it: chunks offered in order, rest left |
| AnnexB.OnRead | internal/encode/ffmpeg.go:144-148 | one read extends the kept rest and extracts; an empty read changes nothing |
| AnnexB.OnError | internal/encode/ffmpeg.go:149-160 | at the read error a rest longer than four bytes is offered as last chunk, a shorter one lost |
| AnnexB.ReadAll | internal/encode/ffmpeg.go:143-148 | the read loop equals feeding the reads one by one |
| AnnexB.ReadNALs | internal/encode/ffmpeg.go:136-162 | whatever the reads, the chunks offered are those of the whole stream split at once |
| AnnexB.ExtractAppend | internal/encode/ffmpeg.go:143-187 | extracting in two instalments, resuming from the rest, equals extracting once |
| AnnexB.FeedIsExtract | internal/encode/ffmpeg.go:143-187 | any list of reads gives the cut of their concatenation |
| AnnexB.ChunkingInvariance | internal/encode/ffmpeg.go:136-187 | two ways of cutting one stream into reads emit the same chunks and leave the same rest |
| AnnexB.NoStraddle | internal/encode/ffmpeg.go:140 | the start code is unbordered: no match straddles a junction at which a code begins |
| AnnexB.ExtractConserves | internal/encode/ffmpeg.go:164-187 | chunks and rest concatenate to the buffer, cut at start codes and nowhere else |
| AnnexB.SplitConserves | internal/encode/ffmpeg.go:149-187 | emitted chunks plus a residue of at most four bytes are the stream; after any chunk the residue is empty or a lone start code |
| AnnexB.SplitShape | internal/encode/ffmpeg.go:164-187 | every chunk but possibly the first begins with the code, the first iff the stream does, none holds a code past its own |
| AnnexB.CuttingIsUnique | internal/encode/ffmpeg.go:164-187 | conservation and shape determine the cut: any other cutting at codes is the splitter's own |
| AnnexB.ExtractJoin | internal/encode/ffmpeg.go:164-187 | joined clean units are cut back into all units but the last, which stays buffered |
| AnnexB.SplitJoin | internal/encode/ffmpeg.go:136-187 | splitting joined clean units gives them back, an empty last payload excepted |
| AnnexB.JoinSplitRoundTrip | internal/encode/ffmpeg.go:136-187 | the round trip holds if and only if no payload holds a start code and the last is not empty |
| OpenH264.ExtractNALs | internal/encode/openh264.go:189-202 | the nested loops return every layer's cut by its length table, in order |
| OpenH264.AppendLayer | internal/encode/openh264.go:192-199 | the moving cursor cuts one layer at the running sums of its lengths, in bounds |
| OpenH264.CutPacked | internal/encode/openh264.go:192-199 | a length table cuts back-to-back units into exactly those units |
| OpenH264.TableUnpacks | internal/encode/openh264.go:189-202 | the units come back whatever their grouping into layers |
| OpenH264.ReadersAgree | internal/encode/openh264.go:189-202 | table reader and streaming splitter give one list from the same bytes, for every grouping and chunking, iff payloads are clean and the last is not empty |
| Keyframe.DetectH264Keyframe | cmd/server/client/compositor.js:112-127 | the scan answers true exactly when the server's IDR test accepts some suffix |
| Keyframe.IdrOfUnit | internal/server/server.go:278-283 | behind a four-byte or three-byte code at the beginning a unit is an IDR iff the low five bits of its first byte are 5; a three-byte code needs a byte more |
| Keyframe.NoCodeNoIdr | internal/server/server.go:274-283 | nothing without a code at the beginning is an IDR |
| Keyframe.CachedIsKey | internal/server/server.go:163-168 | what the server caches as IDR is a key chunk for the browser, whatever precedes it |
| Keyframe.KeyOnChunk | internal/server/server.go:273-284 | on a chunk that starts with a code the readers can differ only through a later code |
| Keyframe.ReadersEqualOnSingleUnit | internal/server/server.go:273-284 | with no three-byte code from offset 4 on, the two readers agree |
| Keyframe.ReadersDiffer | internal/server/server.go:273-284 | a chunk the splitter emits that the browser takes for key and the server does not |
| Itoa.Itoa | internal/server/server.go:286-306 | returns the decimal text of every 64-bit value but the smallest, for which it returns a sign |
| Itoa.WriteDigits | internal/server/server.go:290-300 | the digits end up at the end of the 20-byte array, the index never leaves it and one cell remains for the sign |
| Itoa.DecimalReadsBack | internal/server/server.go:286-306 | the text reads back as the number and has no leading zero unless the number is 0 |
| Itoa.ReadsBackUnlessMin | internal/server/server.go:286-306 | the printed text reads back if and only if the number is not the smallest |
| Protocol.MarshalHeader | internal/protocol/protocol.go:27-33 | fills the first 17 bytes of the caller's buffer and no others |
| Protocol.UnmarshalHeader | internal/protocol/protocol.go:35-46 | fails exactly on buffers shorter than a header |
| Protocol.HeaderSlices | internal/protocol/protocol.go:28-32 | type at byte 0, timestamp at 1, width at 9, height at 11, size at 13, payload from 17 |
| Protocol.UnmarshalMarshal | internal/protocol/protocol.go:27-46 | every header survives marshal and unmarshal, whatever follows it |
| Protocol.MarshalUnmarshal | internal/protocol/protocol.go:27-46 | every 17-byte buffer survives unmarshal and marshal |
| Protocol.SizeField | internal/server/server.go:155 | the size field is the length if and only if it fits 32 bits |
| Protocol.HeadersSay | internal/server/server.go:150-156 | video headers say type 1, the timestamp, width and height; audio headers type 4, the timestamp, 48000 and 2; both the length modulo 2^32 |
| Protocol.OnMessageMeans | cmd/server/client/compositor.js:54-74 | which messages the browser ignores, which throw for reaching past their end, and what it takes from the others, by their bytes |
| Protocol.FramingRoundTrip | cmd/server/client/compositor.js:50-69 | the browser recovers width and height of every video message, and the payload iff it is below 4 GiB |
| Protocol.AudioRoundTrip | cmd/server/client/compositor.js:70-74 | the same for audio messages |
| Binary.PutLittleEndian | internal/protocol/protocol.go:29-32 | writes the little-endian bytes of a field in place and leaves the rest |
| Binary.LittleEndianDigit | internal/protocol/protocol.go:29-32 | byte i is the digit of weight 256 to the i |
| Binary.LittleEndianReads | internal/protocol/protocol.go:41-44 | reading the written bytes gives the value back when it fits |
| Binary.LittleEndianWrites | internal/protocol/protocol.go:41-44 | writing the value read gives the bytes back |
| ClientQueue.ApplyKeepsValid | internal/server/client.go:36-42 | a send or a receive keeps the queue bounded and in order |
| ClientQueue.RunValid | internal/server/client.go:36-83 | in every run the queue holds at most 16 messages, and those taken then those queued are a subsequence of those offered |
| ClientQueue.NeverDisplaced | internal/server/client.go:36-42 | an offer adds its message at the end if fewer than 16 are queued and changes nothing else; a receive loses nothing |
| ClientQueue.GetsTheAdmitted | internal/server/client.go:36-83 | over any run, taken then queued are exactly the offers that met fewer than 16 queued messages |
| ClientQueue.TakesDeliver | internal/server/client.go:63-68 | n receives take the first n queued messages |
| ClientQueue.Accounting | internal/server/client.go:36-42 | taken and queued number no more than offered, with equality exactly when no send met a full queue |
| ClientQueue.LosslessIffNeverFull | internal/server/client.go:36-42 | everything offered is taken or queued, in order, iff no send met a full queue |
| ClientQueue.FirstIsKept | internal/server/client.go:36-42 | the first message offered is never dropped and is what the client gets first |
| Broadcast.Client.Send | internal/server/client.go:36-42 | the non-blocking send refines the queue's offer |
| Broadcast.Client.Receive | internal/server/client.go:63-68 | the pump's receive refines the queue's take and returns the front message |
| Broadcast.Server.SendToAll | internal/server/server.go:170-174 | every registered client is offered the message once, in any order of visiting |
| Broadcast.Server.BroadcastOne | internal/server/server.go:149-178 | one NAL: cache replaced iff it is an IDR, counters advanced, every client offered the framed message |
| Broadcast.Server.Broadcast | internal/server/server.go:148-179 | a call's NALs: new cache, counters modulo 2^64 and every client's queue in terms of the frames |
| Broadcast.Server.BroadcastAudio | internal/server/server.go:182-201 | every client is offered the framed chunk; cache and counters stay |
| Broadcast.BuildMessage | internal/server/server.go:150-161 | header and payload make one message of 17 bytes more than the payload |
| Broadcast.BroadcastCall | cmd/server/main.go:278-280 | one result of the encoder: cache, both counters and every client's queue in terms of its frames; an empty result broadcasts nothing |
| Broadcast.BroadcastRun | internal/server/server.go:148-179 | over any run with any clients the cache frames the last IDR, frame and byte counters advance by the exact totals modulo 2^64, every client is offered every frame in order |
| Broadcast.LastIDRAppend | internal/server/server.go:163-177 | cache and byte count of a run compose from those of its parts |
| Broadcast.RunFramesAre | internal/server/server.go:148-149 | the frames of a run are those of its calls, call after call |
| Broadcast.OfferedAllOffers | internal/server/server.go:170-174 | offering messages offers each once, in order, and displaces nothing |
| Broadcast.CounterIsTotal | internal/server/server.go:176-177 | a counter equals the exact total modulo 2^64 |
| Broadcast.OfferedAppend | internal/server/server.go:170-174 | so do the offers to a client's queue |
| Broadcast.CacheIsNewestIDR | internal/server/server.go:163-168 | the cache holds a message iff it frames the newest IDR |
| Broadcast.CachedFrameStartsDecoder | internal/server/server.go:252-257 | a cached message parses in the browser to a payload seen as key |
| ServerProtocol.RunKeepsRegistry | internal/server/server.go:248-265 | in every reachable state the registry holds exactly the clients between Store and Delete |
| ServerController.NextKeepsInv | internal/server/server.go:240-270 | every step keeps the ownership invariant of the controller slot |
| ServerController.RunKeepsInv | internal/server/server.go:240-270 | the ownership invariant holds in every reachable state |
| ServerController.ControllerExclusive | internal/server/server.go:235-271 | at most one connection can deliver text; it asked for control and is in the slot; a taken slot names a live handler |
| ServerController.DeliversIffInSlot | internal/server/server.go:240-246 | in every reachable state a connection can deliver text iff it is in its read loop, in the slot, and there is an input callback |
| ServerController.TextReaches | internal/server/client.go:52-54 | a text message reaches the input callback iff its sender can deliver |
| ServerController.InputNeverInterleaves | internal/server/client.go:45-56 | the texts reaching the input callback form one uninterrupted stretch per controller |
| ServerSession.ArrivalOutcome | internal/server/server.go:235-263 | a connection whose upgrade is accepted ends up registered, counted, reading and offered the cached IDR if there is one; it can deliver text iff it asked for control, the slot was free and there is an input callback |
| ServerSession.DepartureOutcome | internal/server/server.go:265-269 | one that leaves takes itself out of registry, count and slot, and changes nothing else |
| ServerSession.SessionLeavesNoTrace | internal/server/server.go:221-271 | coming and going leaves registry, count and slot as they were |
| ServerSession.RejectedLeaves | internal/server/server.go:230-233 | a failed upgrade leaves nothing behind |
| ServerSession.SessionInRun | internal/server/server.go:221-271 | the same from every reachable state |
| ServerAdmission.NextKeepsCount | internal/server/server.go:222-249 | count stays exact; count plus waiting grows only by a passed check below the limit |
| ServerAdmission.RunCountExact | internal/server/server.go:249-266 | count is the number of handlers between Add(1) and Add(-1), in every reachable state |
| ServerAdmission.AdmissionBound | internal/server/server.go:222-249 | with at most k handlers between check and Add, count plus those waiting never exceeds 24 + k |
| ServerAdmission.RegistrySize | internal/server/server.go:248-266 | registry and count differ by exactly the handlers between their two updates, so are equal when there are none |
| ServerAdmission.ReachFull | internal/server/server.go:222-249 | with k overlapping upgrades every count from 24 to 24 + k is reached |
| ServerAdmission.LimitHoldsIffSerialised | internal/server/server.go:222-249 | with or without an input callback, the limit of 25 holds in all schedules iff k is at most 1; 24 + k is attained |
| ServerQueues.OwnQueue | internal/server/server.go:163-257 | in every interleaving a client's queue is what its own visits, cached send and receives make of an empty one |
| ServerQueues.QueuesValid | internal/server/client.go:36-83 | in every interleaving every client's queue is bounded and in order |
| ServerQueues.QueueLosslessIffNeverFull | internal/server/client.go:36-42 | in every interleaving a client misses nothing iff none of its messages met a full queue |
| ServerQueues.QueueIsAdmitted | internal/server/client.go:36-42 | in every interleaving a client gets exactly the messages offered to it that met fewer than 16 queued ones |
| ServerQueues.PumpDelivers | internal/server/client.go:63-68 | from any state n receives of a pump deliver the first n queued messages |
| ServerQueues.NextSameFor | internal/server/server.go:163-271 | no step of the server depends on the queue of another client |
| ServerQueues.SlowNeighboursInvisible | internal/server/server.go:170-174 | stalling all other clients' pumps changes neither a client's queue nor registry, counters, cache or broadcasters |
| ServerFrames.NextKeepsCache | internal/server/server.go:163-168 | every step keeps the cache at the newest decided IDR |
| ServerFrames.JustRead | internal/server/server.go:252-254 | reading the cache after registering covers every IDR decided so far |
| ServerFrames.NextKeepsClient | internal/server/server.go:163-257 | every step keeps each client covered for every finished IDR |
| ServerFrames.RunKeepsInv | internal/server/server.go:163-257 | registry, cache and coverage invariants hold in every reachable state |
| ServerFrames.NoMissedIDR | internal/server/server.go:163-257 | a registered client past its cached send has been offered every IDR whose broadcast has finished, or a later one |
| ServerFrames.CacheIsNewest | internal/server/server.go:163-168 | the cache names an IDR iff it is the newest decided one |
| ServerFrames.FirstMessageMayPrecedeIDR | internal/server/server.go:248-257 | a schedule in which a non-IDR frame is queued ahead of the cached IDR |
| ServerOrder.RunKeepsLive | internal/server/server.go:170-174 | in every reachable state whoever a broadcast may visit has been registered |
| ServerOrder.OfferedShape | internal/server/server.go:163-257 | in every interleaving a client is offered the visits before its cached send, the cached IDR, the visits after |
| ServerOrder.EarlyIsOffered | internal/server/server.go:248-256 | before the cached send those early visits are all it has been offered |
| ServerOrder.RunCachesIdr | internal/server/server.go:252-254 | what a client reads from the cache is an IDR |
| ServerOrder.StartsWithIdrIff | internal/server/server.go:248-257 | in every interleaving a client past its cached send starts with an IDR iff no broadcast came between registration and that send or the first that did was an IDR; with nothing cached the first broadcast after it decides |
| ServerOrder.VisitsRise | internal/server/server.go:170-200 | in every interleaving a client is visited with frames and with audio chunks each in the order of their broadcast, none twice |
| ServerOrder.OfferedInOrder | internal/server/server.go:170-257 | so what it is offered is in order, the cached IDR apart |
| ServerOrder.TakenInOrder | internal/server/client.go:63-68 | and so are the audio chunks it takes |
| ServerReach.EveryFrameReachesStayers | internal/server/server.go:170-174 | in every interleaving a client registered before a frame's broadcast begins, and from then on, has been offered the frame once its broadcast has finished |
| ServerReach.EveryChunkReachesStayers | internal/server/server.go:196-200 | the same for audio chunks |
| ServerReach.JoinerMayBeVisited | internal/server/server.go:248 | a client that registers during a broadcast may be visited by it |
| ServerReach.DepartedIsNotAwaited | internal/server/server.go:265 | one that leaves is not waited for |
| ServerReach.FrameCompletes | internal/server/server.go:148-179 | from any reachable state with the broadcaster idle, a frame can be broadcast to the end, whatever clients do |
| ServerReach.ChunkCompletes | internal/server/server.go:182-201 | the same for an audio chunk |
| ServerReach.RunKeepsVisitable | internal/server/server.go:170-200 | every reachable state is such a state |
| Cursor.BlendRange | internal/capture/cursor.go:203-206 | the weighted sum lies between 255 times either colour, so nothing overflows |
| Cursor.Over | internal/capture/cursor.go:203-206 | 255 times the blended byte is the weighted sum of source and destination rounded down to a multiple of 255; it lies between the two |
| Cursor.SpecialAlphas | internal/capture/cursor.go:192-201 | the branches for alpha 0 and 255 agree with the general formula |
| Cursor.Mix | internal/capture/cursor.go:204-206 | 32-bit sum and truncation to a byte lose nothing |
| Cursor.OffsetBound | internal/capture/cursor.go:188-189 | pixel offsets inside the rectangle are inside the buffer |
| Cursor.OwnPixel | internal/capture/cursor.go:189 | a byte lies at a pixel's offset iff its row and column are that pixel's |
| Cursor.BlendPixel | internal/capture/cursor.go:191-207 | the loop body panics exactly when the alpha byte looked at or, unless it is 0, the pixel written is missing; else it changes that pixel as specified and nothing else |
| Cursor.BlendRow | internal/capture/cursor.go:182-208 | the inner loop composites one clipped row unless some access is out of range |
| Cursor.BlendCursor | internal/capture/cursor.go:173-210 | the loops panic iff some access is out of range; else the frame is the per-pixel composite of the old frame, clipped |
| Cursor.PixelComposited | internal/capture/cursor.go:188-207 | the frame pixel under column cx, row cy of the pointer image, by offsets: alpha 0 leaves it, any other makes it opaque and mixes each colour in the proportion of alpha, rounded down |
| Cursor.ElsewhereUnchanged | internal/capture/cursor.go:177-186 | every byte that is no such pixel stays |
| Cursor.FullSizeFits | internal/capture/cursor.go:188-191 | with buffers of the stated sizes no access is out of range |
| Cursor.StaysBetween | internal/capture/cursor.go:173-210 | colour bytes stay between pointer and frame; bytes not covered are unchanged |
| Cursor.DisjointCommute | internal/capture/cursor.go:173-210 | pointer images sharing no frame pixel composite in either order |
| Cursor.SharpIsIdempotent | internal/capture/cursor.go:192-201 | an image without half-transparent pixels composited twice gives the same as once |
| DmaBuf.Kernel.Acquire | internal/capture/cursor.go:46-52 | the descriptor obtained was not open before and is a new acquisition; all others are as they were |
| DmaBuf.Kernel.Close | internal/capture/kms.go:17-19 | closing an open descriptor closes its acquisition once and no other |
| DmaBuf.CursorState.Capture | internal/capture/cursor.go:117-158 | holds at most one descriptor, closes the replaced or the surplus one on every exit, leaves all others alone, draws exactly when import and read allow |
| DmaBuf.CursorState.Close | internal/capture/cursor.go:160-170 | closes the held descriptor and nothing else; what it would close again is open iff nothing was held |
| DmaBuf.CursorState.Replace | internal/capture/cursor.go:131-134 | the new descriptor takes the place of the held one, which is closed |
| DmaBuf.KMSCapturer.NextFrame | internal/capture/kms.go:87-130 | through every failure the open descriptors are exactly those held and those of the rest of the process; how many are obtained and when a frame is returned |
| DmaBuf.KMSCapturer.TakeBuffer | internal/capture/kms.go:99-107 | the new descriptor replaces the old, which is closed |
| DmaBuf.KMSCapturer.TakePointer | internal/capture/kms.go:118-119 | capturing the pointer keeps the capturer's own descriptor |
| DmaBuf.KMSCapturer.Close | internal/capture/kms.go:132-145 | closes exactly what is held; another call right away is safe iff no pointer descriptor was held |
| DmaBuf.NewKMSCapturer | internal/capture/kms.go:39-85 | succeeds iff every step does; obtains one descriptor iff it gets that far; a failed import gives it back; other open descriptors are untouched |
| DmaBuf.Session | internal/capture/kms.go:39-145 | over constructor, frames with any failures and one Close: which polls return a frame, exactly how many descriptors were obtained, each closed exactly once, and all others as before |
| DmaBuf.AcquisitionsCount | internal/capture/kms.go:39-130 | without failures every poll obtains one descriptor and one more for a shown pointer |
| AudioCapture.Channel.TakeFront | internal/audio/capture.go:124-127 | a removal takes the oldest chunk and is recorded as received or dropped |
| AudioCapture.Channel.Push | internal/audio/capture.go:120-129 | the plain send never blocks, the new chunk is last, the length is exact, one chunk is dropped iff the channel was full and not emptied in between |
| AudioCapture.Channel.MakeRoom | internal/audio/capture.go:123-127 | the inner select drops the oldest chunk unless the consumer has taken all |
| AudioCapture.ReadLoop | internal/audio/capture.go:99-131 | pushes exactly the whole chunks of each recorder in order, drops exactly as many as pushes overrun, and closes the channel on exit |
| AudioCapture.LosslessIffNoOverrun | internal/audio/capture.go:120-129 | a run drops nothing iff no push finds the channel full and not emptied in between |
| AudioCapture.PushOutcome | internal/audio/capture.go:120-129 | a push drops a chunk iff it finds 32, none is received before its first attempt and fewer than 32 before its second; how many are left, in numbers |
| AudioCapture.PushesCount | internal/audio/capture.go:102-130 | one push for every chunk produced |
| AudioCapture.ProducedBlocks | internal/audio/capture.go:103-118 | a run pushes a prefix of the blocks of all recorders, all of them given enough rounds |
| AudioCapture.BlockAt | internal/audio/capture.go:15-21 | block m is the m-th 3840 bytes: frames stay aligned |
| AudioCapture.BlocksCount | internal/audio/capture.go:107-118 | a recording has as many blocks as whole chunks of 3840 bytes |
| AudioCapture.Accounting | internal/audio/capture.go:120-129 | received, dropped and queued account for all chunks; the queue is a contiguous suffix; the consumer sees a subsequence, everything iff nothing was dropped |
| Worklet.PlayAudio | cmd/server/client/compositor.js:216-229 | posts the decoded samples; an odd byte count posts nothing |
| Worklet.DecodeExact | cmd/server/client/compositor.js:222-227 | decoding is injective and stays in [-1, 1) |
| Worklet.SampleReadsBack | cmd/server/client/compositor.js:225-227 | samples are two's complement, low byte first, over 32768 |
| Worklet.PCMProcessor.OnMessage | cmd/server/client/compositor.js:167-174 | with at most 48000 buffered the message is appended, above that the newest 24000 are kept and the message appended to them |
| Worklet.PCMProcessor.Process | cmd/server/client/compositor.js:176-193 | when short, silence and the buffer stays; else each output channel gets its interleaved samples and exactly those leave the front |
| Worklet.PCMProcessor.Deinterleave | cmd/server/client/compositor.js:187-191 | the nested loops write sample i * 2 + ch to channel ch |
| Worklet.NextKeepsAligned | cmd/server/client/compositor.js:167-193 | every event keeps the alignment invariant |
| Worklet.ChannelAlignment | cmd/server/client/compositor.js:165-193 | over every run of whole chunks the buffer starts on a left sample, holds at most 48000 + 1920 values, and positions played strictly increase with the parity of their channel |
| Worklet.MessageKeeps | cmd/server/client/compositor.js:168-173 | what a message keeps of the samples buffered |
| Worklet.ProcessTakes | cmd/server/client/compositor.js:181-191 | an output request plays the front samples in order or takes nothing |
| Worklet.GaplessIff | cmd/server/client/compositor.js:165-193 | over any run nothing is skipped iff no message met more than 48000 buffered samples, and what was played has no gap iff nothing was played after such a message |
| Worklet.ReceivesMessages | cmd/server/client/compositor.js:167-174 | what was received is the concatenation of the messages |
| Worklet.PostedAt | cmd/server/client/compositor.js:171-172 | position p of it is sample p mod 1920 of message p / 1920 |
| AudioPath.ChunkReachesWorklet | cmd/server/client/compositor.js:70-74 | a broadcast chunk arrives as exactly its 1920 samples |
| AudioPath.CarriedInOrder | internal/server/server.go:182-201 | messages whose chunk numbers rise carry a subsequence of the chunks broadcast |
| AudioPath.AllCarried | internal/server/server.go:182-201 | every audio message carries its chunk |
| AudioPath.StagesKeepOrder | internal/audio/capture.go:99-131 | for every run of the read loop and every schedule of the server, the messages a client's worklet gets are a subsequence of the decoded blocks of all recordings |
| AudioPath.OriginHolds | internal/audio/capture.go:107-118 | sample j of block b is the named sample of the named recording, on the channel of parity j |
| AudioPath.OriginIncreases | internal/audio/capture.go:107-118 | later blocks and samples come from later places in the recordings |
| AudioPath.ReceivedFrom | internal/audio/capture.go:15-21 | whatever was dropped on the way, everything received has a place in a recording with the parity of its position |
| AudioPath.PlayedInOrder | cmd/server/client/compositor.js:165-193 | for messages that are such a subsequence, what is played are samples of the recordings in strictly increasing order of recording and sample, each on its own channel |
| AudioPath.PathPlaysInOrder | cmd/server/client/compositor.js:165-193 | end to end, in every interleaving of the server: the same of what any client plays |
| Encoder.WriteChan.TrySend | internal/encode/ffmpeg.go:217-221 | queues the frame unless two are queued; never on a closed channel |
| Encoder.WriteChan.Close | internal/encode/ffmpeg.go:258 | closes once, never a closed channel |
| Encoder.FFmpegEncoder.constructor | internal/encode/ffmpeg.go:36-54 | a new encoder is running, waits for its first frame and owns one open write channel |
| Encoder.FFmpegEncoder.Environment | internal/encode/ffmpeg.go:182-185 | a reader's chunk that meets four queued ones is dropped, any other is queued last; nothing else is emitted |
| Encoder.FFmpegEncoder.Kill | internal/encode/ffmpeg.go:257-274 | closes the write channel once and throws away what the NAL channel holds, and what readers still add to it, round by round |
| Encoder.FFmpegEncoder.Replace | internal/encode/ffmpeg.go:252 | retires the closed channel and owns a new open one |
| Encoder.FFmpegEncoder.Restart | internal/encode/ffmpeg.go:250-255 | retires the old channel closed and owns a new open one, even when ffmpeg does not start |
| Encoder.FFmpegEncoder.Drain | internal/encode/ffmpeg.go:199-208 | result, queue and what was emitted meanwhile are exactly those of receiving until the channel is found empty |
| Encoder.FFmpegEncoder.WaitFirst | internal/encode/ffmpeg.go:223-232 | adds the front chunk if one arrives; cancelled, it loses what was drained |
| Encoder.FFmpegEncoder.Exchange | internal/encode/ffmpeg.go:199-232 | drains, queues Y, U, V as one frame unless two frames are queued by then, waits on the first call only |
| Encoder.FFmpegEncoder.Trade | internal/encode/ffmpeg.go:199-221 | its first half: drain, then offer the frame |
| Encoder.FFmpegEncoder.Encode | internal/encode/ffmpeg.go:189-238 | result, NAL queue, write queue and emitted chunks are functions of the state before and the plan; a new write channel iff the process was found stopped; the channel is sent on, closed and made exactly as `ChanOps` says |
| Encoder.FFmpegEncoder.Close | internal/encode/ffmpeg.go:244-248 | the current channel is closed once and the NAL channel drained |
| EncoderRun.EncodeOutcome | internal/encode/ffmpeg.go:189-238 | exactly when a call fails, that the frame is offered once unless ffmpeg could not start, and that a call on a running process discards nothing and returns all that was queued, first |
| EncoderRun.FrameIsQueued | internal/encode/ffmpeg.go:211-221 | the frame is Y, then U, then V, queued behind at most one other |
| EncoderRun.QueueKeepsFirst | internal/encode/ffmpeg.go:182-185 | the NAL channel keeps its first four chunks and drops later ones |
| EncoderRun.WriterTakesFront | internal/encode/ffmpeg.go:82-90 | the writer takes frames from the front |
| EncoderRun.FirstCallWaits | internal/encode/ffmpeg.go:223-232 | the first call adds the first chunk emitted after the drain if it waits for it; no other call waits |
| EncoderRun.RunningSinceStart | internal/encode/ffmpeg.go:76-88 | over any run the process counts as running iff goroutines have not, last of all, cleared `running` since the last successful start |
| EncoderRun.RestartsIffStopped | internal/encode/ffmpeg.go:193-197 | over any run the next call restarts ffmpeg iff it stopped since its last successful start |
| EncoderRun.QuietStartHolds | internal/encode/ffmpeg.go:250-255 | a start or restart that nothing disturbs holds for the next call |
| EncoderRun.DrainedSound | internal/encode/ffmpeg.go:199-208 | draining keeps order and accounting, leaves nothing and overtakes nothing |
| EncoderRun.KilledSound | internal/encode/ffmpeg.go:266-273 | so does killing, which leaves nothing queued |
| EncoderRun.EncodedSound | internal/encode/ffmpeg.go:189-238 | so does a call, whatever it returns |
| EncoderRun.RunSound | internal/encode/ffmpeg.go:189-238 | over any run, results then queue are in order among the chunks emitted; delivered, queued, dropped and discarded add up to them |
| EncoderRun.RestartsCounted | internal/encode/ffmpeg.go:193-197 | a run restarts ffmpeg once for each call that finds it stopped |
| EncoderRun.RunWithin | internal/encode/ffmpeg.go:189-238 | a run invents nothing: what happened is, in order, among what the plans allow |
| Encoder.RunCalls | internal/encode/ffmpeg.go:36-238 | New and any Encode calls: results, state and everything done to write channels are those of the calls |
| Encoder.Session | internal/encode/ffmpeg.go:36-274 | over New, any Encode calls and one Close: results, final state and everything done to write channels are those of the calls, one write channel more than calls that found the process stopped, each closed exactly once, results an in-order subsequence of the NALs emitted, all of them iff none was dropped or discarded |
| Encoder.SafeIffNothingAfterClose | internal/encode/ffmpeg.go:244-274 | a run of calls never sends on or closes a closed channel iff nothing follows a Close |
| Keymap.MouseButtonToLinux | internal/input/keymap.go:42-53 | every browser button maps into the three registered buttons |
| Keymap.MouseButtons | internal/input/keymap.go:42-53 | 0 is left, 1 middle, 2 right, any other left, by their Linux codes |
| Keymap.KeyCodeReadsBack | internal/input/keymap.go:3-35 | every browser code can be recovered from its Linux code, which lies in 1..255 |
| Keymap.KeymapInjective | internal/input/keymap.go:3-53 | two codes share a Linux code iff they are equal, and none is a mouse button |
| Keymap.KeymapComplete | internal/input/keymap.go:3-35 | no key is missing: every Linux code that stands for a browser code is reached from it |
| Input.Device.WriteEvent | internal/input/device.go:185-193 | appends one 24-byte record, or nothing when the write fails |
| Input.Device.InjectKey | internal/input/device.go:141-150 | writes a key report up to the first failing record, which uses up its outcome, and succeeds iff all of it was written |
| Input.Device.InjectMouseMove | internal/input/device.go:152-160 | writes a position report up to the first failing record, which uses up its outcome, and succeeds iff all of it was written |
| Input.Device.InjectMouseButton | internal/input/device.go:162-171 | writes a button report up to the first failing record, which uses up its outcome, and succeeds iff all of it was written |
| Input.Device.InjectWheel | internal/input/device.go:173-178 | writes a wheel report up to the first failing record, which uses up its outcome, and succeeds iff all of it was written |
| Input.Device.HandleMessage | internal/input/protocol.go:23-51 | writes what can be written of the message's report, nothing for unknown types and keys or a zero wheel delta |
| Input.HandleAll | cmd/server/main.go:163-169 | a run of messages writes the stream of what could be written of their reports, in order; all of them if no write fails |
| Input.WrittenWithoutFaults | internal/input/device.go:141-178 | a device that accepts every write gets every event |
| Input.RecordReadsBack | internal/input/device.go:185-193 | a record decodes to its event, negative values included |
| Input.RecordLayout | internal/input/device.go:186-190 | sixteen zero bytes, then type, code and value, low byte first |
| Input.ToInt32Keeps | internal/input/device.go:153-156 | conversion keeps the low 32 bits, and numbers that fit |
| Input.StreamReadsBack | internal/input/device.go:185-193 | a stream of records decodes to its events |
| InputReplay.EventsGroup | internal/input/device.go:141-178 | the events fall into the messages' reports, each ended by its only SYN, with nothing pending |
| InputReplay.GroupConserves | internal/input/device.go:141-178 | cutting the event stream at SYNs loses and invents nothing |
| InputReplay.WholeReports | internal/input/device.go:141-178 | if no report is cut short the kernel sees exactly the completed reports |
| InputReplay.WholeIffNoneCutShort | internal/input/device.go:141-193 | with failing writes the kernel sees exactly the completed reports iff no failure comes after the first write of a report |
| InputReplay.PressedIsHeard | internal/input/device.go:141-171 | with failing writes what is down is what the messages with a successful first write alone would leave down |
| InputReplay.ReplayedDespiteFaults | internal/input/device.go:141-193 | with failing writes a mapped key or button is down iff the last message for it with a successful first write said so, and nothing else is down |
| InputReplay.EventsEnabled | internal/input/device.go:98-113 | every event has a type and code that the virtual device registered |
| InputReplay.HeldReplays | internal/input/protocol.go:23-41 | for any key map without shared codes, what is held is what the last messages said |
| InputReplay.EventsReplay | internal/input/protocol.go:23-41 | a mapped key or button is down iff its last message said so, and nothing else is down |
| InputReplay.MotionReplayed | internal/input/protocol.go:32-49 | after any messages the pointer is where the last move said, X on axis 0 and Y on axis 1, and the wheel has turned one notch up per negative delta and one down per positive |
| InputReplay.InputReplayed | internal/input/protocol.go:23-51 | the bytes written decode into those reports and, replayed, leave exactly those keys down |

## Left out

- Device and library calls (DRM, EGL, GBM, libyuv, OpenH264, libvpx, uinput registration): they appear as answers that succeed or fail.
- Processes, pipes, TLS, HTTP, the WebSocket and JSON layers, logging, timers and signals: only their events appear (bytes read, an error, a disconnect, a parsed message).
- The X11 and screencast capturers, VAAPI probing and command-line flags: process plumbing.
- WebCodecs, the canvas, the status display, pointer-coordinate mapping and `printStatLine`: user interface and floating point.
- The VP8 encoder, whose frames never pass the splitter; the repository's README still names VP8 in the browser while the code decodes H.264.
- The `idr` flag and handle of the OpenH264 encoder, and `FFmpegEncoder.ForceKeyframe`, whose flag the code never reads: only easy members would result.
- AnnexB.ReadNALs: states the chunks offered to the NAL channel; what its capacity of four drops is stated in module Encoder.
- Broadcast.Server.Broadcast: the registry stands still during the call; registration and departure during a broadcast are the subject of ServerProtocol, where messages are named by their place in the stream.
- ServerAdmission.AdmissionBound: `count` is an unbounded integer, not an `atomic.Int32`; reaching 2^31 needs as many handlers past the check at once.
- ServerFrames.NoMissedIDR: speaks of messages offered; whether one is queued depends on the client's own queue having room, which ServerQueues.QueueLosslessIffNeverFull describes.
- Pings, write timeouts and the end of the write pump: a client that takes nothing more is a schedule without its Pump steps.
- Encoder.Session: Close comes after the last Encode, as the encoding goroutine's deferred call makes it. A Close that races with an Encode is modelled only in part: that the first call's wait can end by cancellation, which in the code only such a Close causes, but not its closing of channels in the middle of the call. The writing of frames to ffmpeg's input is not modelled beyond their leaving the current queue.
- DmaBuf.KMSCapturer.NextFrame: pixels, sizes and positions are not part of it; the code passes the display mode's size to the blend while the pixel buffer has the framebuffer's size, so whether the blend panics is up to those sizes (Cursor.BlendCursor says exactly when).
- AudioCapture.ReadLoop: a recorder that fails to start again is one with empty output; the two-second pause is left out.
- Worklet.PCMProcessor.Process: two output channels, as the node is created; samples are exact reals, of which 16-bit values over 32768 are a subset that 32-bit floats represent exactly.
- Worklet.PlayAudio: the returns while no worklet exists or the audio context is suspended are left out; a chunk lost there is one that no Message event delivers.
- Input.HandleAll: messages arrive parsed; a wheel event with a fractional delta fails to parse and injects nothing.

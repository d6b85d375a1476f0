# Verified models of the robot gateway's stateful components

The gateway between the robot's engine, the cloud and SDK clients is, for the most part,
forwarding. This project models the parts that keep state, and proves what they are for, over
every input, run or interleaving.

- `Reassembly`: audio and camera frames are rebuilt from numbered chunks in a cache that
  resynchronises after losses. The two copies of the algorithm differ in the buffer's size and
  in which id the frame is sent under, so one model serves both.
- `FaceChunks`: a face image is cut into numbered chunks, all filled into one reused array.
- `Listeners`, `Dispatching`, `DispatchDeletes`, `DispatchCompletion`, `DispatchOnce`,
  `DispatchOrder`: the listener registry of the
  three IPC managers. The registry and its channels are classes. The concurrent behaviour is a
  step machine of creators, deferred deletes, readers and dispatchers, in which every dispatch
  runs one sender per listener, under the locks the code takes.
- `Clad`, `CladMessages`, `CladRecords`, `CladPackets`: generated message code. `Clad` has the
  laws for every layout the generator can express. The others have the generated methods,
  proved to do what the layout says, for strings, flags, lists of structures, of integers and of
  strings, a fixed array, a structure in a structure, a union in a structure, and that in a union.
- `MicDatagram`: the hand-written parser of microphone datagrams, against the generated codec.
- `VoiceLoop`, `VoiceHotword`, `VoiceAnswers`, `VoiceProcess`: the loop that owns one voice stream at a time.
- `Resequencer`: the speaker's sort-and-drain queue, and the chunk loop that plays a job.
- `ConnectionRing`: the hour of connection checks in a ring, and its report.
- `Demux`: datagrams told apart by sender, and connections opened by a handshake.
- `NavMap`: the begin/data/end accumulator of navigation maps.
- `Progress`: the filter that keeps an update's progress from running backwards.
- `Wire`: bytes, machine integers, byte orders.

Where the code updates fields, buffers or slices in place, the model is a class or a method
over an array, and its contract ties it to a function or relation on values. The properties are
proved of those. Sockets, RPC streams and channels from elsewhere are input and output
sequences, and a timeout is a choice that can be made at any moment.

## What the code does not do

Some things one would expect do not hold. The condition under which they do is proved for each.

- A frame of two or more chunks whose id is 4294967295 is never sent, because that id is the
  cache's empty mark (`Reassembly.SentinelFrameLost`; `LossSafety` delivers every other frame).
- A chunk that does not fit the buffer makes the feed panic (`Reassembly.OversizeChunkPanics`;
  `FeedSendsExactlyTheFrames` says exactly when).
- An image whose pixel count is one short of a multiple of 600 cannot be sent
  (`FaceChunks.SucceedsIff`). The one size in use, 17664, can.
- A dispatch with more than five timed-out listeners never ends, and holds its read lock for
  ever (`DispatchCompletion.EndsIffAtMostFiveTimeouts`). It can come to that exactly if more than
  five listeners are registered under its tag when it begins (`CanBlockIffMoreThanFive`).
- Two loops that dispatch messages of one tag can give a listener a later message before an
  earlier one (`DispatchOrder.TwoLoopsUpsetOrder`). The event tag has two, the loop of the other
  message format (cloud/ipc_manager.go:608) and the update status stream
  (cloud/message_handler.go:2974). When a dispatch begins, the order can be upset exactly if an
  earlier dispatch still owes the listener its message (`DispatchOrder.OvertakenIffOwed`). Each
  message is still given exactly once (`DispatchOnce.ExactlyOnce`).
- A hotword that is rejected leaves the stream it closed in place as the current one, and fed
  (`VoiceLoop.ClosedStreamStaysCurrent`). So what is proved is that every other stream is closed;
  the current one is closed exactly if a hotword has come since it was opened
  (`VoiceLoop.EveryStreamFed`).
- The speaker blocks for good exactly if some job number arrives more than once and all smaller
  ones arrive, in whatever order (`Resequencer.BlockedIffRepeated`, `RepeatBlocks`).
- A check that is still running while a later one has finished is shown with its own time and the
  result of the check 720 before it, or as a success in 0 ms (`ConnectionRing.WindowShows`,
  `OutOfOrderShowsUnfinished`). The window shows only results exactly if the running checks are
  the latest (`WindowIffInOrder`).
- A document's text has an unchecked four-byte length prefix, so one of 2^32 bytes is packed but
  comes back empty (`Clad.LongText`); a message survives exactly if it is within its limits
  (`Clad.RoundTripsIffWithin`). With 32-bit ints, as on the robot, there is no such text.
- A flag byte of 2 is unpacked as true and packed as 1 (`Clad.OddFlag`). Packing gives the bytes
  that were unpacked back exactly if every flag byte among them is 0 or 1
  (`Clad.RepacksIffPlain`).

## Model

| member | source | states |
|---|---|---|
| Reassembly.StepTracks | cloud/message_handler.go:2361-2400 | Whatever came before, one more chunk is answered as the trailing chunks alone demand: a frame is sent iff they are chunks 0 to n-1 of one group, and the cache holds exactly the partial group they end in |
| Reassembly.FeedSendsExactlyTheFrames | cloud/message_handler.go:2436-2461 | On any chunk stream the feed panics iff some prefix ends in a chunk that overruns its buffer, and otherwise has sent exactly the frames the stream contains as consecutive chunks of one group, in order, byte for byte, and holds the partial group it ends in |
| Reassembly.WholeGroupSent | cloud/message_handler.go:2372-2399 | Resynchronisation: from any live cache state, a complete contiguous group that fits is sent byte for byte and leaves an empty cache |
| Reassembly.PartialGroupTaken | cloud/message_handler.go:2365-2397 | From any live cache state, the beginning of a group leaves exactly that group in the cache and sends nothing |
| Reassembly.LossWithinFrame | cloud/message_handler.go:2706-2745 | Of one frame with any chunks lost: nothing is sent unless all arrive, and the cache is then never in step with the frame again |
| Reassembly.LossSafety | cloud/message_handler.go:2775-2796 | Frames with distinct ids, split, any chunks lost: exactly the frames whose chunks all arrived are sent, in order, unmixed, byte for byte |
| Reassembly.SentinelFrameLost | cloud/message_handler.go:2365-2392 | A two-chunk frame under the sentinel id is lost though both chunks arrive |
| Reassembly.OversizeChunkPanics | cloud/message_handler.go:2728-2740 | A first chunk larger than the buffer it asks for makes the feed panic |
| Reassembly.DeadFeed | cloud/message_handler.go:2394-2396 | After an overrun nothing more happens |
| Reassembly.FeedCache.Reset | cloud/message_handler.go:2352-2359 | The cache is the empty one, with no buffer |
| Reassembly.FeedCache.Unpack | cloud/message_handler.go:2361-2400 | The method on the buffer filled in place does what the specification of one chunk says, in outcome and in every field |
| Reassembly.Handle | cloud/message_handler.go:2436-2461 | The loop body sends the frame that the specification sends, and no buffer already sent is the one being filled |
| Reassembly.Serve | cloud/message_handler.go:2775-2796 | Read at the end of the run, the buffers sent hold what the specification sent: no later chunk altered one |
| Reassembly.FirstAudioChunk | cloud/message_handler.go:2372-2399 | A first audio chunk makes the feed panic iff it is longer than 3200 bytes; if it is alone in its group it is otherwise sent as it is |
| Reassembly.FirstImageChunk | cloud/message_handler.go:2717-2744 | The same of an image, with width * height * 3 bytes, modulo 2^32 |
| Reassembly.AudioFeed | cloud/message_handler.go:2436-2461 | The audio feed is the loop over its messages' chunks |
| Reassembly.CameraFeed | cloud/message_handler.go:2775-2796 | So is the camera feed |
| FaceChunks.SendFaceDataAsChunks | cloud/message_handler.go:780-809 | For any arguments, the chunks sent are the first ones, each with its own pixels, number, count and whatever earlier chunks left in the reused array, and sending stops for the reason returned |
| FaceChunks.Convert | cloud/message_handler.go:794-797 | The array's front becomes the big-endian pixels, its rest is untouched; a panic iff there are more pixels than the array has room for |
| FaceChunks.RangesTile | cloud/message_handler.go:783-792 | The byte ranges tile the image in order; the pixel counts are all within 0 to 600 iff the total is not 599 modulo 600 |
| FaceChunks.AllFitIff | cloud/message_handler.go:790-792 | Every chunk can be sliced out iff the total is not 599 modulo 600 and the slice's capacity covers the image |
| FaceChunks.SucceedsIff | cloud/message_handler.go:780-815 | A sending succeeds iff the total is not 599 modulo 600, the capacity covers the image, and all writes are accepted |
| FaceChunks.OnePixelShort | cloud/message_handler.go:785-792 | 599 pixels panic, after no chunk or after one, depending on the bytes behind the image |
| FaceChunks.DrawnIsTheImageSoFar | cloud/message_handler.go:794-800 | However a sending ends, the first NumPixels entries of the chunks sent join to the decoding of the image's front |
| FaceChunks.SentImage | cloud/message_handler.go:784-808 | After a success they join to the big-endian decoding of the whole image, though the array is reused; up to 255 chunks each carries its own number and the count |
| FaceChunks.EveryPixel | cloud/message_handler.go:790-797 | Pixel p drawn has byte 2p of the slice as its high half and byte 2p+1 as its low one, for every pixel of the image |
| FaceChunks.StalePixels | cloud/message_handler.go:781-800 | Behind its own pixels a chunk repeats those of the chunk before |
| FaceChunks.DisplayFaceImageRGB | cloud/message_handler.go:811-822 | 17664 pixels arrive in 30 chunks; the handler responds iff no chunk before the first refused write lacks its bytes |
| Listeners.SwapRemoveTakesOut | cloud/ipc_manager.go:140-151 | Overwriting by the last and truncating removes that one listener and keeps all others, once each |
| Listeners.AddKeeps | cloud/ipc_manager.go:173-179 | Registering keeps every key's list non-empty and every listener under one tag, once |
| Listeners.DeleteKeeps | cloud/ipc_manager.go:139-155 | So does deleting, and the listener is registered nowhere afterwards |
| Listeners.Manager.CreateChannel | cloud/ipc_manager.go:167-181 | A new, open, empty channel is at the end of its tag's list; all other registrations stay |
| Listeners.Manager.SafeClose | cloud/ipc_manager.go:199-208 | The channel is closed, at most its oldest message is lost, and it panics iff the channel was already closed with messages in it |
| Listeners.Manager.DeleteListenerUnsafe | cloud/ipc_manager.go:139-155 | A registered listener is taken out and closed; an unregistered one is not touched; every registered channel is still open; it never panics |
| Dispatching.EveryRunIsSafe | cloud/ipc_manager.go:139-249 | In every interleaving a channel is open iff registered, under its tag, once; a key exists iff its list is non-empty; no send on or second close of a closed channel; a channel's messages are conserved but for at most one dropped by its close |
| Dispatching.TrafficKeeps | cloud/ipc_manager.go:237-246 | Sends and receives on one channel disturb nobody else's invariant |
| Dispatching.DeleteListenerKeeps | cloud/ipc_manager.go:158-164 | A delete under the write lock keeps the invariant and leaves the channel closed, however often it is repeated |
| DispatchDeletes.CallbackDeletes | cloud/ipc_manager.go:158-164 | A deferred delete leaves its channel registered nowhere and closed, short of its oldest message if it had one, and every other channel, registration and dispatch as it was |
| DispatchDeletes.CallbackEnabledIff | cloud/ipc_manager.go:159-163 | It can take place iff no dispatch is sending or purging |
| DispatchDeletes.PurgeDeletes | cloud/ipc_manager.go:216-220 | A purge does the same to the listener given up on first |
| DispatchDeletes.CreateRegisters | cloud/ipc_manager.go:167-181 | A creation adds one open, empty channel of the asked capacity under its tag, and changes nothing else |
| DispatchDeletes.OpenIffNotDeleted | cloud/ipc_manager.go:137-249 | Over every run a created channel is open iff no deferred delete or purge of it has taken place |
| DispatchDeletes.EveryRunIsWithinCapacity | cloud/ipc_manager.go:237-241 | Over every run no channel holds more messages than its capacity |
| DispatchDeletes.SendsUnlessFull | cloud/ipc_manager.go:237-241 | Over every run a waiting sender can send iff its channel is not full, or has no buffer |
| DispatchDeletes.OnlyOpenChannels | cloud/ipc_manager.go:199-247 | Over every run, every channel that a send or a delete finds registered is open |
| DispatchDeletes.WouldPanic | cloud/ipc_manager.go:199-247 | Otherwise a send, or a close with messages left, would have panicked |
| DispatchDeletes.PurgesAndReturns | cloud/ipc_manager.go:213-222 | A dispatch that has unlocked, no other holding a lock, can return, with all listeners it gave up on closed |
| DispatchCompletion.SenderStepShortens | cloud/ipc_manager.go:233-247 | Every sender step strictly decreases the dispatch's measure, and only a timeout raises its count of timeouts |
| DispatchCompletion.SchedulesAreShort | cloud/ipc_manager.go:232-248 | No schedule keeps a dispatch's senders busy for more steps than the measure |
| DispatchCompletion.NeverStuck | cloud/ipc_manager.go:233-248 | With at most five timeouts, a dispatch that is not done always has a sender that can move, whatever readers do |
| DispatchCompletion.SixTimeoutsBlockForEver | cloud/ipc_manager.go:212-248 | With six or more, no continuation whatever ends the dispatch |
| DispatchCompletion.EndsIffAtMostFiveTimeouts | cloud/ipc_manager.go:212-248 | A dispatch can still end iff at most five of its listeners have timed out |
| DispatchCompletion.CanBlockIffMoreThanFive | cloud/ipc_manager.go:211-248 | When a dispatch begins, some schedule blocks it for ever iff more than five listeners are registered under its tag |
| DispatchCompletion.ListenersRegistered | cloud/ipc_manager.go:167-181 | Any number of listeners can be registered when a dispatch begins |
| DispatchCompletion.SixListenersCanBlock | cloud/ipc_manager.go:212-248 | From the start, six registrations and a dispatch can lead to one that never ends |
| DispatchOnce.EveryMessageOnce | cloud/ipc_manager.go:211-249 | Whoever dispatches, in every interleaving, a listener has been given only messages of its tag dispatched since it registered, none twice, and while it is registered each of them has either been given to it or is owed by an active dispatch |
| DispatchOnce.ExactlyOnce | cloud/ipc_manager.go:211-249 | However many loops dispatch, a registered listener that is owed nothing has been given, as a multiset, exactly the messages due to it |
| DispatchOrder.PatientIsInOrder | cloud/ipc_manager.go:233-248 | If no dispatch ever begins to a listener still owed a message, it has at every moment been given everything due, in order, but possibly one message under way, and once closed a prefix |
| DispatchOrder.EveryLoopIsOrdered | cloud/ipc_manager.go:252-274 | So it is, at every moment and for every listener, when each tag is dispatched by one loop, whatever loops dispatch other tags at the same time |
| DispatchOrder.GapFree | cloud/ipc_manager.go:211-249 | Then, whenever no dispatch of its tag is active, a listener has been given exactly its tag's messages since it registered, in order, a closed one a prefix; its reader misses at most one |
| DispatchOrder.OvertakenIffOwed | cloud/ipc_manager.go:224-248 | When a dispatch begins to a listener in order so far, some schedule gives it a message past an earlier one, before the next dispatch of the tag, iff an active dispatch still owes it one |
| DispatchOrder.TwoLoopsUpsetOrder | cloud/ipc_manager.go:233-247 | Two overlapping dispatches of one tag, the second's sender first: the messages are in the channel in the wrong order |
| DispatchOrder.FailedListenerGone | cloud/ipc_manager.go:213-222 | A listener that timed out is closed by the time no dispatch of its tag is active, whatever happens meanwhile |
| Clad.SizeIsLength | internal/clad/cloud/docs.go:297-308 | For every layout and value that packs, Size is the number of bytes packed |
| Clad.ReadsLittleEndian | internal/clad/cloud/docs.go:35-59 | What Unpack takes for a number, or for the length of a string or list, has byte i of the input as its digit of weight 256^i; a string is the bytes behind its length |
| Clad.WritesLittleEndian | internal/clad/cloud/docs.go:61-84 | And so Pack writes them |
| Clad.OneIsOneZero | internal/clad/cloud/mic.go:225-248 | The uint16 1 is packed as the bytes 1, 0 |
| Clad.RoundTrip | internal/clad/gateway/messageRobotToExternal.go:642-700 | For every layout and every value within its limits, unpacking what Pack wrote, followed by anything, gives the value and leaves exactly what followed |
| Clad.PrefixRejected | internal/clad/vision/offboardVision.go:52-95 | Every proper prefix of a packed message is refused, wherever it is cut |
| Clad.MoreInput | internal/clad/cloud/docs.go:639-656 | Bytes behind what Unpack needs change nothing but what is left |
| Clad.DecodeSound | internal/clad/gateway/messageRobotToExternal.go:2041-2191 | Whatever Unpack accepts, from any bytes, is a message within its limits, of as many bytes as Pack writes for it |
| Clad.RepacksIffPlain | internal/clad/vision/offboardVision.go:52-143 | Packing what was unpacked gives the very bytes back iff every flag byte read was 0 or 1 |
| Clad.UnpackInvertsPack | internal/clad/cloud/docs.go:35-84 | For every layout, Unpack yields a value and a rest from bytes with plain flags iff the bytes are what Pack writes for that value, then the rest |
| Clad.WithoutFlags | internal/clad/cloud/docs.go:35-59 | A layout without flags reads none but plain ones |
| Clad.PacksIffWithin | internal/clad/vision/offboardVision.go:97-145 | Where every length is checked, Pack refuses exactly the messages beyond a limit, however deep inside |
| Clad.RoundTripsIffWithin | internal/clad/cloud/docs.go:61-84 | A message survives the round trip iff it is within its limits, checked by Pack or not |
| Clad.OddFlag | internal/clad/vision/offboardVision.go:65-70 | The flag byte 2 is read as true, and written as 1 |
| Clad.LongText | internal/clad/cloud/docs.go:76-82 | A text of 2^32 bytes under an unchecked length is packed, and comes back empty, with all its bytes left over |
| CladMessages.Doc.Unpack | internal/clad/cloud/docs.go:35-59 | The method does on the buffer what the layout's decoding says |
| CladMessages.Doc.Pack | internal/clad/cloud/docs.go:61-84 | It appends the layout's encoding, or fails iff that does |
| CladMessages.Doc.Size | internal/clad/cloud/docs.go:24-33 | Its uint32 sum is the encoded length, modulo 2^32 |
| CladMessages.ReadItem.Unpack | internal/clad/cloud/docs.go:254-267 | The method does on the buffer what the layout's decoding says |
| CladMessages.ReadItem.Pack | internal/clad/cloud/docs.go:269-283 | It appends the layout's encoding, or fails iff that does |
| CladMessages.ReadRequest.Unpack | internal/clad/cloud/docs.go:310-338 | The same, with the slice of structures read in a loop |
| CladMessages.ReadRequest.Pack | internal/clad/cloud/docs.go:340-371 | The same, with the slice's length checked first and every item's own check after |
| CladMessages.ReadRequest.Size | internal/clad/cloud/docs.go:297-308 | The loop's uint32 sum is the encoded length, modulo 2^32 |
| CladMessages.ActionCompletedUnion.Unpack | internal/clad/gateway/messageRobotToExternal.go:139-178 | A tag and its structure are read as the layout says; after an error the union is empty, unless there was no tag to read |
| CladMessages.ActionCompletedUnion.Pack | internal/clad/gateway/messageRobotToExternal.go:125-137 | An empty union is packed as the invalid tag, another as its tag and structure |
| CladMessages.RobotCompletedAction.Unpack | internal/clad/gateway/messageRobotToExternal.go:653-675 | A structure holding a list of integers and a union is read as the layout says |
| CladMessages.RobotCompletedAction.Pack | internal/clad/gateway/messageRobotToExternal.go:677-700 | It appends the layout's encoding, or fails iff that does |
| CladMessages.RobotCompletedAction.Size | internal/clad/gateway/messageRobotToExternal.go:642-651 | Its uint32 sum is the encoded length, modulo 2^32 |
| CladRecords.WriteRequest.Unpack | internal/clad/cloud/docs.go:113-142 | A structure in a structure is read as the layout says |
| CladRecords.WriteRequest.Pack | internal/clad/cloud/docs.go:144-176 | It appends the layout's encoding, or fails iff that does, on its own strings or the inner one |
| CladRecords.WriteRequest.Size | internal/clad/cloud/docs.go:101-111 | Its uint32 sum with the inner Size is the encoded length, modulo 2^32 |
| CladRecords.DisplayFaceImageRGBChunk.Unpack | internal/clad/gateway/messageExternalToRobot.go:183-203 | A fixed array, filled in place, and a flag are read as the layout says |
| CladRecords.DisplayFaceImageRGBChunk.Pack | internal/clad/gateway/messageExternalToRobot.go:205-225 | It never fails, and appends the layout's encoding |
| CladRecords.DisplayFaceImageRGBChunk.Size | internal/clad/gateway/messageExternalToRobot.go:172-181 | The constant sum is the encoded length |
| CladPackets.MessageRobotToExternal.Unpack | internal/clad/gateway/messageRobotToExternal.go:2041-2191 | The outer union dispatches on the tag as the layout says; after an error it is empty, unless there was no tag to read |
| CladPackets.MessageRobotToExternal.Pack | internal/clad/gateway/messageRobotToExternal.go:2027-2039 | It appends the layout's encoding, or fails iff that does |
| CladPackets.Exchange | internal/clad/gateway/messageRobotToExternal.go:2020-2191 | A union in a structure in a union, packed and then unpacked with more bytes behind it: packed iff within its limits, then received equal, with exactly those bytes left, and Size its length |
| CladPackets.ExchangeCut | internal/clad/gateway/messageRobotToExternal.go:2174-2191 | Of the same packet only the first bytes arrive: it is accepted iff that is all of them |
| CladPackets.PacketsHaveOneForm | internal/clad/gateway/messageRobotToExternal.go:2174-2191 | Any bytes are accepted as a message and a rest iff they are what Pack writes for it, then the rest |
| CladPackets.OffboardImageReady.Unpack | internal/clad/vision/offboardVision.go:52-95 | A structure with flags and a list of strings is read as the layout says |
| CladPackets.OffboardImageReady.Pack | internal/clad/vision/offboardVision.go:97-145 | It appends the layout's encoding, or fails iff the list or any string is too long |
| CladPackets.OffboardImageReady.Size | internal/clad/vision/offboardVision.go:34-50 | The loop's uint32 sum is the encoded length, modulo 2^32 |
| MicDatagram.ParserAgreesWithCodec | cloud/audio.go:127-135 | For every datagram of tag 1 that fits the buffer, the hand-written parser publishes iff the generated Unpack succeeds, and what it publishes are the unpacked samples in little-endian form |
| MicDatagram.UnpackAudio | internal/clad/cloud/mic.go:225-235 | What Message.Unpack does with an audio tag |
| MicDatagram.AudioSubscriber.Handle | cloud/audio.go:127-188 | One datagram's notification, timestamp and direction, from the read bytes alone |
| MicDatagram.SpeechDoneReports | cloud/audio.go:144-188 | The end of speech is notified with the direction, confidence and selected direction in bytes 5 to 10 of the latest report, and the number of the last audio |
| MicDatagram.ReadLoop | cloud/audio.go:111-190 | All notifications depend on the datagrams alone, never on what earlier ones left in the shared buffer |
| VoiceLoop.EveryRunIsDisciplined | internal/voice/process.go:168-349 | Over every run: every non-current stream is closed; each stream answers at most once, while current, and exactly once iff it was not replaced first; intent answers come right after a stop signal |
| VoiceLoop.StreamsAndAnswers | internal/voice/process.go:272-339 | The same spelled out: closed unless current, at most one terminal response, after a stop signal, by a stream that is current |
| VoiceAnswers.EveryAnswerIsDue | internal/voice/process.go:168-348 | All that is sent over a run, in order and with its contents: what each event demands, and nothing for events of streams not current when they came |
| VoiceAnswers.PriorStreamIgnored | internal/voice/process.go:272-339 | An event of a stream that is not current could be left out of any run: the same is sent, and every stream is given and left the same |
| VoiceLoop.EveryStreamFed | internal/voice/process.go:243-250 | Over every run each stream was given exactly the samples that arrived while it was current, in order; while it is current it is closed iff a hotword has come since it was opened |
| VoiceLoop.AudioReachesOneStream | internal/voice/process.go:227-269 | No audio message falls into two streams' times |
| VoiceLoop.ClosedStreamStaysCurrent | internal/voice/process.go:176-204 | A rejected hotword leaves its closed predecessor current, and fed |
| VoiceHotword.HotwordOutcome | internal/voice/process.go:174-229 | A hotword opens a new current stream, sending only the news of a test, iff its mode is 0 to 2 and its locale is empty or two parts around the one hyphen or the one underscore in it; any other opens none and sends exactly one invalid-configuration error; either closes the stream that was current |
| VoiceHotword.TwoPartsIff | internal/voice/process.go:447-455 | The locales accepted are those that split in two at hyphens, or else at underscores |
| VoiceHotword.CheckOutcome | internal/voice/process.go:252-269 | A request to check the connection closes the current stream, opens one for the check, and sends nothing |
| VoiceHotword.CheckFailureCodes | internal/voice/process.go:413-438 | Which code the kind of an error gives: TLS, connectivity, a timeout as bandwidth, all others as authorization |
| VoiceProcess.Process.OnHotword | internal/voice/process.go:174-229 | The method on the process's fields refines the specification of a hotword |
| VoiceProcess.Process.OnStream | internal/voice/process.go:272-339 | So it does for whatever comes from a stream |
| VoiceProcess.RunProcess | internal/voice/process.go:142-349 | The select loop's whole run is the specified run |
| Resequencer.EveryRun | cloud/audio_socket.go:39-70 | After any arrivals, repeated numbers included: played and buffered jobs are the arrived ones as multisets, the played ones are in order from 0, the buffer is sorted, and its head is not the next one |
| Resequencer.WaitsForSmallestMissing | cloud/audio_socket.go:58-68 | Unless blocked, the next number is the smallest that has not arrived, and all smaller ones have been played |
| Resequencer.BlockedIffRepeated | cloud/audio_socket.go:58-67 | Whatever the order of arrival, it ends up blocked iff some number arrived more than once and all smaller ones arrived |
| Resequencer.RepeatBlocks | cloud/audio_socket.go:58-67 | Two jobs of number 0 do block it |
| Resequencer.BlockedForEver | cloud/audio_socket.go:61-67 | Then no arrival makes it play again |
| Resequencer.EveryPermutationPlays | cloud/audio_socket.go:42-70 | 0 to n-1 in any order: all are played, in order, and the buffer is empty |
| Resequencer.Player.SortBuffer | cloud/audio_socket.go:59-59 | The buffer in place becomes a sorted permutation of itself |
| Resequencer.Player.Receive | cloud/audio_socket.go:52-69 | One arrival, sorted and drained in place, is an arrival of the specification |
| Resequencer.SendChunks | cloud/audio_socket.go:160-183 | The chunks sent are full but for the last, and join to the samples, or to their front up to the failed send |
| ConnectionRing.EveryRun | internal/cloudproc/dev/connect.go:35-76 | In every interleaving of ticks and finishing checks, the slots of the last 720 checks have their times and their own results, or until then the results left there; index, head and count follow from the ticks and the running checks |
| ConnectionRing.WindowShows | internal/cloudproc/dev/connect.go:114-117 | In every interleaving, the entries from head for count slots are those of consecutive checks from the oldest on, each with its own result, or the one left in its slot while it runs |
| ConnectionRing.WindowIffInOrder | internal/cloudproc/dev/connect.go:35-76 | The window is a list of consecutive results, oldest first, each its own check's, iff the running checks are the latest ones |
| ConnectionRing.SequentialChecks | internal/cloudproc/dev/connect.go:47-52 | When each check ends before the next tick, the window after t checks is exactly the last min(t, 719) results in order, values included, and never covers the slot of a running check |
| ConnectionRing.SequentialWindow | internal/cloudproc/dev/connect.go:35-76 | For any results, of checks that each finish before the next tick, the window is the last 719 of them, or all, in order, each as it was |
| ConnectionRing.OutOfOrderShowsUnfinished | internal/cloudproc/dev/connect.go:53-74 | Two overlapping checks, the second done first: the first, still running, is shown as a success in 0 ms |
| ConnectionRing.ConnData.Begin | internal/cloudproc/dev/connect.go:40-55 | One turn of the routine, and the stamp its check begins with, is a tick of the specification; the result in the slot stays |
| ConnectionRing.ConnData.End | internal/cloudproc/dev/connect.go:59-73 | A check's end is a finish of the specification, whatever its slot holds by then |
| ConnectionRing.ConnData.Report | internal/cloudproc/dev/connect.go:114-126 | The report's lines, taken together, are the window, entry by entry; stretches of only successes and single failures take turns, so that every stretch is maximal |
| Demux.FirstHandshakeIsFirst | internal/ipc/dgram.go:113-114 | The position found is that of the first handshake packet |
| Demux.ClientsHaveShakenHands | internal/ipc/dgram.go:115-129 | An address has a client iff a handshake has come from it |
| Demux.EachAddressGetsItsDue | internal/ipc/dgram.go:101-138 | In every interleaving each address yields one connection, at its first handshake, which is given exactly the first 32768 bytes of each of the address's later packets, in order, handshakes excepted |
| Demux.ShortPacketsArriveWhole | internal/ipc/dgram.go:100-124 | If no packet is longer than that, it is given exactly their own bytes |
| Demux.HandshakeText | internal/ipc/dgram.go:23-25 | A handshake is the eight characters ANKICONN and nothing else |
| Demux.KilledServerGavePrefix | internal/ipc/dgram.go:121-134 | If the server is killed at any moment, each address got a prefix of that |
| Demux.Reader.Dispatch | internal/ipc/dgram.go:113-137 | What is handed on of the bytes in the reused buffer, and who becomes a client |
| Demux.Serve | internal/ipc/dgram.go:98-139 | The loop hands on exactly what the packets call for, or its front up to the kill |
| NavMap.EverySentMap | cloud/message_handler.go:3413-3428 | The i-th map sent is the one under way, by the history, at the i-th End that sends |
| NavMap.SendingPositions | cloud/message_handler.go:3418-3428 | Those Ends are exactly the ones with a map under way, in order |
| NavMap.OneMessage | cloud/message_handler.go:3384-3428 | What the history says is under way is what the accumulator keeps: begun anew, extended or dropped |
| NavMap.GoesIntoIff | cloud/message_handler.go:3399-3411 | A Data message goes into the map sent at k iff a map is under way when it comes and k is the first Begin or End after it, and an End |
| NavMap.NoQuadIsSentTwice | cloud/message_handler.go:3406-3428 | A Data message goes into at most one sent map |
| NavMap.StrayMessagesDoNothing | cloud/message_handler.go:3403-3420 | Data or End with nothing pending could be left out of any run, and the same maps were sent |
| NavMap.NavMapFeed | cloud/message_handler.go:3380-3430 | The loop sends exactly those maps, or the first ones until the client is gone |
| Progress.RunningMaximum | cloud/message_handler.go:2939-2949 | After a reset, what is published is the sensible reading since then with the highest ratio, the earliest of equal ones, or 0/1; always 0 <= progress <= expected and expected > 0 |
| Progress.RatioNeverDecreases | cloud/message_handler.go:2934-2949 | Between two resets the published ratio never decreases |
| Progress.AllIsShown | cloud/message_handler.go:2939-2945 | A reading of all of something is shown if less was shown before, and nothing replaces it |
| Progress.NonsenseIsNotShown | cloud/message_handler.go:2940-2949 | A reading of nothing, or of more than all, leaves what is shown |
| Progress.NothingBeforeTheFirstRestart | cloud/message_handler.go:2939-2949 | From the zero values nothing but 0 of 0 would be published |
| Progress.Gateway.StartUpdateEngine | cloud/message_handler.go:3039-3042 | After any events, the globals are the last good pair of a history that a restart ends, from which everything published later is then measured |
| Progress.Gateway.Filter | cloud/message_handler.go:2939-2949 | After any events and one more reading, what is shown and kept is the last good pair of that history |
| Progress.Gateway.UpdateStatusStream | cloud/message_handler.go:2924-2985 | The stream publishes after every reading the last good pair, and stops at the first reading with an exit code that is not its first reading |
| Progress.PollsIs | cloud/message_handler.go:2976-2983 | The number of readings after which the stream stops is determined by the exit codes |

## Left out

- Sockets, TLS, gRPC, protobuf, JSON, file reads, systemctl, logging and metrics: inputs and outputs are sequences.
- Real time: a timeout can happen at any moment, and sleeps take no time.
- Integer width of Go's int: the model's lengths and indices are unbounded, the robot's build has 32-bit ones; wire-sized integers are modelled with their wrap.
- Reassembly.Serve: ends when the chunks do; a failing Send to the client ends the real feed earlier, after the same frames.
- Reassembly.Handle: sends the id and the joined payload; the other response fields are copied from the last chunk, and that the camera takes the id from the cache makes no difference.
- FaceChunks.DisplayFaceImageRGB: the message's encoding for the robot and the request's other checks are left to other code.
- Listeners.Manager.CreateChannel: uniqueness in CreateUniqueChannel, whose test and creation are separate critical sections and do not give it.
- CladMessages.ReadRequest.Unpack: does not say what fields hold after an error, when the receiver is partly overwritten.
- CladPackets.MessageRobotToExternal.Unpack: knows two of the 21 tags, one with content and one without; the others are structures of shapes shown elsewhere, and here count as unknown.
- Other generated messages: they instantiate the same layouts.
- MicDatagram.AudioSubscriber.Handle: keeps of a direction datagram only its numbers as read, not degrees, power or noise floor.
- VoiceAnswers.EveryAnswerIsDue: a message that is sent to several receivers or intent writers counts as one sending; error listeners, options and the inside of a stream are not modelled.
- VoiceProcess.RunProcess: the end of audio, which closes the current stream's sending side, changes nothing here.
- DispatchOrder.OvertakenIffOwed: messages are told apart by their position in the order of dispatch, not by content.
- Resequencer.WaitsForSmallestMissing: assumes fewer than 2^32 jobs, since the sequence number wraps.
- Resequencer.SendChunks: the prepare and complete messages around the chunks.
- ConnectionRing.EveryRun: a check ends before its slot comes round again, 720 ticks later, which its own time-out of one tick brings about.
- ConnectionRing.ConnData.Begin: the check's goroutine stamps its slot at the tick, not a moment later, and its result and the count change together.
- ConnectionRing.ConnData.Report: the minimum, maximum and average of a stretch, and the text.
- Demux.Serve: what the connections do with their packets; reads that fail end the packets.
- NavMap.NavMapFeed: the order in which select takes messages from the three channels, which need not be the order of sending.
- Progress.RatioNeverDecreases: ratios are exact, where the code rounds to float64; a reset between a stream's test and its update is not modelled.
- Progress.Gateway.UpdateStatusStream: one stream at a time, with the readings there are while the client is connected.
- The rate limiter, timed robot motion, behavior control, token refresh, jdocs translation, the tool table and the request/response wrappers.

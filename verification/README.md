# A verified model of kdb-solace

kdb-solace feeds messages from a Solace broker into a q process and publishes q values to the broker. This
project models its three stateful parts and proves what they keep:

* **The feed queue.** A Solace thread serialises every message, puts an 8-byte length in front of it, writes the
  frame to a ring buffer under a mutex and sends one dot down a non-blocking socket pair. The q main thread is
  woken by a dot, reads the size of the ring *without* the lock, drains that many bytes, takes the frames apart
  again and hands them to q as one batch. The ring, the framing and each end of the queue are modelled in place
  (`CircularBuffer.dfy`, `FeedHandler.dfy`), and the interleaving of the two threads as a step relation in which
  every access to shared state is a step of its own (`Protocol.dfy`). A schedule is any sequence of "who moves
  next", spurious wake-ups included; theorems quantify over all schedules.
* **The translation.** kdb+ values are encoded into Solace containers and decoded on the other side
  (`Publisher.dfy`, `Receiver.dfy` in place; `Encoding.dfy`, `Decoding.dfy` as functions). It loses
  information; `Norm` in `RoundTrip.dfy` says which.
* **The session and its topics.** init, subscribe, unsubscribe, gettopics, disconnect and the session-down event
  over fixed arrays of heap strings (`TopicRegistry.dfy`), against a summary of the accepted requests
  (`TopicTable.dfy`).

## Results that are not what one might expect

* **A drain can split a message.** When a write wraps, `cb_write` stores `t = 0` (src/cb.c:65) before it stores
  `t += n` (src/cb.c:70). The snapshot of `callback` (src/solace_k.c:352) does not take the lock, so it can fall
  in between and count a piece of a frame. Whether that can happen depends on the session alone:
  `Tearing.NoScheduleTearsIff` says that no schedule tears a snapshot if and only if no frame *straddles*, that
  is, starts at the sum of the frame lengths before it modulo the capacity and does not end inside the array.
  `Tearing.AlwaysWholeIff` says the same of what is taken from the ring, and `Misdelivery.FaithfulIffNoneStraddles`
  of what q gets: without such a frame the accepted messages in order and nothing else, and with one, for every
  codec, some schedule after which the drain loop has died or q has more messages than were queued. For one run,
  `Delivery.WholeIffNotTorn` relates the bytes drained to the moment of the snapshot.
  `TornRun.TornSnapshotCorrupts` spells one run out: with the capacity of 1,000,000 bytes the code uses, q
  receives a message nobody sent. Everything that does not depend on frames holds for every
  schedule: no byte is lost, the read never refuses, no wake-up is lost, nobody deadlocks, every run is linear in
  its input.
* **OK does not mean complete.** The result code of a list is that of its last item, and the dictionary encoder
  works on the global `rc`. `RoundTrip.FaithfulIffSupported` characterises the values for which OK is reported
  and everything arrives, `Silencing.ReportsOkIff` those for which OK is reported, and `Losses.WhatArrives` what
  arrives for any value at all.
* **A failed dictionary silences the ones after it**, because the global `rc` stays at FAIL.
  `Silencing.ItemArrivesIff` says which items of a list arrive: provided the last item lets the list be sent at all,
  those without a non-empty dictionary, and those with nothing before them whose last dictionary value failed.
* **Spelling matters to the result code.** A typed vector and the general list of its atoms build the same fields,
  but the code differs for an empty vector at top level and for a list that ends in a vector of an unsupported
  type: one spelling is sent and the other refused. `Representation.SpellingArrivesIff` shows that there is no
  other case.
* **Large unsigned numbers change.** A 32-bit unsigned field from 2^31 on arrives as a negative long
  (src/solace.c:584), and a 64-bit one goes through a 32-bit `float` (src/solace.c:590).
  `OtherPublishers.IntegerArrivesIff` says exactly which integers survive.
* **A full table refuses topics it already lists** (`TopicTable.FullTableRefuses`, `TopicTable.ResubscribeIff`):
  after any 250 topics an unsubscribe cannot be taken back in the same session (`TopicTable.UnsubscribeIsFinal`).
* **A session that is cut off leaks its topic names**, exactly those (`TopicRegistry.Serve`).
* **`batched` is not the number of calls made to q**, as the comment at src/solace_k.c:551 has it. It also counts
  callbacks that found the ring empty and made no call, and they are the only difference
  (`Delivery.CallbacksAccounted`). A session of two messages can show it, a session of one cannot
  (`Batched.BatchedCanDifferIff`).

## Assumptions

* One Solace thread and one q main thread; a session is not re-initialised while frames remain.
* `long` is 8 bytes, two's complement, least significant byte first. Counters are unbounded; `RingModel.SumsFitInt`
  shows that the indices of the ring stay inside a 32-bit `int` up to a capacity of 2^30.
* `b9` yields at least one byte and `d9` undoes it. Both are parameters of the protocol (`Messages.Codec`), so the
  theorems hold for every such pair.
* The capacity exceeds 507, the longest frame, and the socket pair holds at least one dot; the code has 1,000,000
  and the operating system's default. Statements that some schedule can do a thing ask for room for two frames.
* Each nested container fits its buffer, `addChar` reads back as the wide-character field, and container calls
  with a proper name argument succeed. The conversion of a 64-bit to a 32-bit `float` is a parameter; where a
  second trip is considered it is idempotent. That of an integer is defined (`Binary32.dfy`).
* `time(NULL)` is not zero.

## Model

| member | source | states |
|---|---|---|
| `Bytes.LongRoundTrip` | src/solace.c:170-170 | a length stored by memcpy is loaded back unchanged, negative ones included |
| `Bytes.LongByteAt` | src/solace.c:170-170 | byte i of a stored length is its digit for 256^i, least significant first; a negative long is stored as 2^64 more |
| `RingModel.StoreToEndShowsPrefix` | src/cb.c:59-65 | between the two stores of a wrapping write the ring has size N - h: it shows the old bytes and exactly the first copy, and the rest still fits |
| `RingModel.StoreRestAppends` | src/cb.c:69-70 | the last copy and store append their bytes, on either side of the head |
| `RingModel.PutAppends` | src/cb.c:59-70 | a write that fits appends its bytes wherever the wrap falls and keeps both indices inside the array |
| `RingModel.TakeRemovesPrefix` | src/cb.c:96-107 | a covered read hands out the oldest bytes and leaves the others |
| `RingModel.CallKeepsValid` | src/cb.c:42-113 | one call answers and changes the contents as the bounded queue does |
| `RingModel.RingRefinesFifo` | src/cb.c:42-113 | for every capacity and every sequence of non-waiting calls, all answers and copied bytes equal those of a FIFO bounded by N - 1 |
| `RingModel.SumsFitInt` | src/cb.c:23-33 | the sums over h, t and n stay inside a 32-bit int up to a capacity of 2^30 |
| `CircularBuffers.CircularBuffer.constructor` | src/cb.c:7-20 | a new buffer is empty |
| `CircularBuffers.CircularBuffer.CbSize` | src/cb.c:23-33 | returns the number of queued bytes |
| `CircularBuffers.CircularBuffer.CbSpace` | src/cb.c:36-40 | space and size add up to N - 1 |
| `CircularBuffers.CircularBuffer.CopyIn` | src/cb.c:59-70 | the copies past the guard leave the ring of the value model |
| `CircularBuffers.CircularBuffer.CbWrite` | src/cb.c:42-76 | appends the bytes if they fit; otherwise nothing changes and the call refuses or parks |
| `CircularBuffers.CircularBuffer.CopyOut` | src/cb.c:96-107 | the copies past the guard overwrite the start of the target with the oldest bytes |
| `CircularBuffers.CircularBuffer.CbRead` | src/cb.c:79-113 | removes the oldest bytes into the target and leaves the rest of it alone; otherwise nothing changes |
| `Framing.ParseUndoesFraming` | src/solace_k.c:358-372 | for any list of frames, wherever they lie and whatever surrounds them, the drain loop returns the list, stops at its end and never dies |
| `Framing.ParseIff` | src/solace_k.c:362-368 | on any bytes: a round yields a payload if and only if the frame of it, with a length from 1 to 499, lies at the offset; otherwise it dies |
| `Framing.ParseFromIff` | src/solace_k.c:360-372 | on any bytes, stale ones included: the loop yields a list if and only if its frames lie there end to end and are as many as it takes to reach qsize |
| `Framing.WireInjective` | src/solace.c:169-178 | frame lists with the same bytes are the same list |
| `Framing.CutFrameIsNotWhole` | src/solace_k.c:360-363 | whole frames followed by a piece of another are never the bytes of any frame list |
| `FeedHandlers.FeedHandler.constructor` | src/solace_k.c:73-80 | queue, dots, deliveries and both counters start empty, and the socket holds what it was given |
| `FeedHandlers.FeedHandler.WriteToBuffer` | src/solace.c:163-184 | drops payloads of 500 bytes or more, otherwise queues the frame and adds a dot unless the socket is full, or waits with nothing changed |
| `FeedHandlers.FeedHandler.DrainFrames` | src/solace_k.c:358-372 | returns the payloads parsed and counts them, or dies exactly when the length check fails |
| `FeedHandlers.FeedHandler.Callback` | src/solace_k.c:345-379 | empties the ring, and if it held whole frames delivers exactly those as one batch |
| `FeedHandlers.SendAll` | src/solace.c:163-184 | messages that fit a fresh queue together lie in it frame by frame, with a dot each as far as the socket takes them |
| `FeedHandlers.WriteThenCallback` | src/solace_k.c:345-379 | end to end from a fresh handler: one callback hands q all of them as one batch, unchanged and in order, and both counters say so |
| `Messages.SessionIsWellNumbered` | src/solace.c:244-285 | over any session: queued messages are numbered in non-decreasing order, stream messages strictly, and each number below msg_recv belongs to exactly one queued stream message or oversize one |
| `Messages.SentAreSurvivors` | src/solace.c:202-285 | the queued messages are those of the readable events that fit, in order, each with its own content and numbered by the stream messages before it |
| `RawInvariants.ProducerKeepsShape` | src/solace.c:163-184 | every step of the Solace thread keeps the indices in range, mutual exclusion, and the frame in hand |
| `RawInvariants.ConsumerKeepsShape` | src/solace_k.c:345-379 | every step of the q thread keeps the same |
| `RawInvariants.ProducerKeepsBytes` | src/cb.c:42-76 | every producer step extends drained plus queued bytes by what it stores of an accepted frame |
| `RawInvariants.ConsumerKeepsBytes` | src/solace_k.c:351-357 | every consumer step keeps drained plus queued bytes |
| `RawInvariants.ProducerKeepsClaim` | src/cb.c:59-70 | no store of the producer, the one mid-wrap included, takes counted bytes away from the front |
| `RawInvariants.ProducerKeepsWakeUp` | src/solace.c:178-181 | unclaimed bytes have a dot pending or owed, although a full socket refuses dots |
| `RawInvariants.ConsumerKeepsWakeUp` | src/solace_k.c:351-354 | the same over the consumer's steps |
| `RawInvariants.ProducerKeepsWait` | src/cb.c:46-57 | a writer goes to sleep only when its frame does not fit |
| `RawInvariants.ConsumerKeepsWait` | src/cb.c:106-109 | a waiting writer has too little space or its signal is about to be sent |
| `RawInvariants.ProducerKeepsBooks` | src/solace.c:256-287 | accepted messages and msg_recv follow the account of the events taken |
| `RawInvariants.StepKeepsRaw` | src/solace_k.c:345-379 | every step of either thread keeps all of these invariants |
| `FrameInvariants.ParseMovesMessage` | src/solace_k.c:360-371 | one round of the drain loop moves the next accepted message, whole, from rbuf to the batch |
| `FrameInvariants.ReadKeepsFrames` | src/cb.c:79-113 | the locked read moves exactly the claimed messages to rbuf |
| `FrameInvariants.SnapshotWholeIff` | src/solace_k.c:352-352 | a snapshot counts whole frames if and only if the producer does not stand between the two stores of a split frame |
| `FrameInvariants.StepKeepsFramed` | src/solace_k.c:345-379 | until a torn snapshot every step keeps the message ledger; after it a split drain stays on record |
| `Delivery.BytesConserved` | src/cb.c:42-113 | for every schedule: bytes drained, then bytes queued, are the accepted frames in order plus the visible part of the one being written |
| `Delivery.MessagesConserved` | src/solace_k.c:351-372 | without a torn snapshot: messages delivered, claimed and queued are the accepted ones, in order, none lost, duplicated or split |
| `Delivery.WholeIffNotTorn` | src/cb.c:59-70 | for every schedule: all drains and the pending claim are whole frames if and only if none of its snapshots fell between the two stores of a split frame |
| `Delivery.NextSnapshotWholeIff` | src/solace_k.c:352-352 | the same for the next snapshot in any state reached so far |
| `Delivery.SnapshotNeverOverstates` | src/solace_k.c:352-357 | what the unlocked snapshot counted is still there under the lock, so cb_read never returns -1 and copies exactly those bytes |
| `Delivery.NoLostWakeUp` | src/solace.c:178-181 | unclaimed bytes always have a dot pending, a dot owed, or a callback about to take its snapshot |
| `Delivery.BlockedWriterIsServed` | src/cb.c:46-57 | while the writer waits, the consumer can move |
| `Delivery.StuckMeansComplete` | src/cb.c:42-113 | a state where nobody can move is one where everything is done |
| `Delivery.NoDeadlock` | src/cb.c:42-113 | over every schedule: a blocked writer is served, being stuck means being complete, and only a torn snapshot kills the drain loop |
| `Delivery.StepLowersRank` | src/solace_k.c:345-379 | every step lowers a weighted measure of the work left |
| `Delivery.RunsAreLinear` | src/solace.c:163-184 | the length of any run is at most 526 per event plus 3 per spurious wake-up plus 1 |
| `Delivery.CanFinish` | src/solace_k.c:345-379 | any run without a torn snapshot can be finished without one |
| `Delivery.TotalDelivery` | src/solace_k.c:345-379 | a run that cannot go on and met no torn snapshot delivered every message that passed the size check, in order, and left nothing behind |
| `Delivery.OnlyBatchingDiffers` | src/solace_k.c:354-377 | two complete runs of a session, even with different capacities, deliver the same messages and agree on msg_processed and msg_recv |
| `Delivery.CountersConserved` | src/solace.c:281-285 | without a torn snapshot: the bytes in rbuf and ring are the frames of some payloads, and messages parsed plus those payloads equal counted less dropped plus admin, plus one exactly while a stream message is disposed of and not yet counted |
| `Delivery.CallbacksAccounted` | src/solace_k.c:345-379 | for every schedule: callbacks plus unread dots never exceed the messages, and callbacks are the batches handed to q plus the snapshots that found the ring empty |
| `Batched.BatchedCanDifferIff` | src/solace_k.c:551-554 | some schedule makes `batched` exceed the number of calls to q if and only if the session queues two messages or more |
| `Delivery.SequenceNumbers` | src/solace.c:202-246 | in every state the delivered numbers are ordered, and a number below msg_recv is missing from the accepted messages exactly when its message was oversize |
| `Tearing.StepKeepsPlaced` | src/cb.c:59-70 | after every step the tail stands at the length of the accepted frames modulo the capacity, or mid-wrap at 0 |
| `Tearing.NoScheduleTearsIff` | src/cb.c:59-70 | for every session, codec and capacity with room for two frames: no schedule tears a snapshot if and only if no frame straddles the end of the array, a condition on the frame lengths alone |
| `Tearing.AlwaysWholeIff` | src/solace_k.c:351-357 | under the same condition, and only then, every schedule takes whole frames only |
| `Misdelivery.ProcessedIsHandedOver` | src/solace_k.c:354-377 | over every schedule, torn snapshots included, msg_processed is the number of messages handed to q |
| `Misdelivery.FaithfulIffNoneStraddles` | src/solace_k.c:345-379 | for every session, codec and capacity with room for two frames: under every schedule the drain loop stays alive, q has a prefix of the queued messages, and at the end all of them, if and only if no frame straddles |
| `Misdelivery.StraddleMisdelivers` | src/solace_k.c:352-372 | for every straddling frame of every session there is a schedule that kills the drain loop or hands q more messages than were queued |
| `Tearing.ShortSessionsNeverStraddle` | src/cb.c:59-67 | no frame straddles in a session whose frames fit the array all together |
| `Tearing.EvenFramesNeverStraddle` | src/cb.c:59-67 | nor in one whose frames all have a length that divides the capacity, however many there are |
| `Reachability.UninterruptedWriteIsPut` | src/cb.c:59-70 | the steps of a write, left alone, leave the ring the in-place method promises |
| `Agreement.WriteAgrees` | src/solace.c:163-184 | a write left alone by the other thread does in the protocol what write_to_buffer does in place: ring, dot unless the socket is full, msg_recv |
| `Agreement.WaitAgrees` | src/cb.c:46-57 | a frame that does not fit leaves everything as it was and its writer waiting |
| `Agreement.CallbackAgrees` | src/solace_k.c:345-379 | a callback left alone takes one dot, empties the ring, is counted, and hands over exactly the messages in the ring as one batch, or makes no call |
| `TornRun.TornSnapshotCorrupts` | src/cb.c:59-70 | an instance of it spelled out: with capacity 1,000,000, one session and one codec, a schedule exists after which q received a message nobody sent |
| `Containers.Container.Add` | include/solclient/solClientMsg.h:2615-2647 | appends a field when the name suits the kind of container, otherwise fails and changes nothing |
| `Containers.Container.AddContainer` | include/solclient/solClientMsg.h:2742-2774 | copies the sub-container in |
| `Publishers.Publisher.EncodeAtom` | src/solace.c:705-755 | adds the one field for a supported atom, or nothing and FAIL |
| `Publishers.Publisher.EncodeVectorElement` | src/solace.c:789-842 | the same for an element of a typed vector |
| `Publishers.Publisher.EncodeDictValue` | src/solace.c:773-784 | one key of a dictionary, result in the global rc |
| `Publishers.Publisher.EncodeDictionary` | src/solace.c:757-787 | fields, result and global rc of a dictionary |
| `Publishers.Publisher.EncodeVectorElements` | src/solace.c:862-870 | the element loop, which stops at the first failure |
| `Publishers.Publisher.EncodeVectorOrDict` | src/solace.c:844-871 | fields, result and global rc of a vector, dictionary or table |
| `Publishers.Publisher.EncodeTo` | src/solace.c:641-702 | fields, result and global rc of any value |
| `Publishers.Publisher.EncodeListItem` | src/solace.c:672-697 | one item of a general list, nested values in sub-containers |
| `Publishers.Publisher.EncodeListItems` | src/solace.c:667-701 | the loop over a general list, whose result is that of the last item |
| `Publishers.Publisher.Publish` | src/solace.c:897-963 | refuses atoms (src/solace_k.c:390), sends the encoding if it reported OK, otherwise returns the code |
| `Losses.PublishAnswers` | src/solace.c:897-963 | refused exactly for atoms; sent exactly if the encoding reports OK and sending succeeds; otherwise FAIL, or the code of the send call |
| `FieldTypes.IntegersKeepTheirRange` | src/solace.c:724-739 | every short, int-like or long-like atom travels in a field with its value and of exactly its range |
| `FieldTypes.FieldComesFrom` | src/solace.c:705-755 | for every kind of field, exactly the atoms that are sent in it |
| `FieldTypes.ElementFieldComesFrom` | src/solace.c:789-842 | the same for elements of typed vectors |
| `RoundTrip.FieldOfValue` | src/solace.c:773-784 | whatever holds the values of a dictionary, there is a field exactly for the supported atoms |
| `Losses.DictLeavesKept` | src/solace.c:757-787 | any dictionary arrives with exactly the keys whose values are supported atoms, in order, each with its normalised value; with other keys, or after a failure, it arrives empty |
| `Losses.WhatArrives` | src/solace.c:641-963 | for every value kdb+ can pass in, whether anything arrives and exactly what: unsupported atoms, vectors and tables inside lists included |
| `Losses.LossInTheMiddle` | src/solace.c:772-784 | an instance: a dictionary that loses a key is sent with the keys after it |
| `Receivers.DecodeFromMap` | src/solace.c:510-532 | walks a map once and returns its dictionary |
| `Receivers.DecodeFromStream` | src/solace.c:534-554 | walks a stream once and returns its list |
| `Receivers.DecodeFromContainer` | src/solace.c:556-638 | returns the value of a field, recursing into containers |
| `FieldTypes.IntegerArrivesAs` | src/solace.c:571-594 | every integer field in range: its kdb+ type, which has room for all of the field unless it is a float, and its exact value, n - 2^32 for an unsigned 32-bit one from 2^31 on |
| `FieldTypes.ValueComesFrom` | src/solace.c:568-634 | for every other value, exactly the fields that arrive as it, the text for an unknown field and the symbol made of the raw attachment included |
| `FieldTypes.ContainerArrivesAs` | src/solace.c:510-554 | a map arrives with the names of its entries as keys, in order, and a stream as a list, each entry as its field |
| `Binary32.NoFloatIsNearer` | src/solace.c:590-590 | the conversion of an unsigned integer to `float` yields a number with a 24-bit significand, and none is nearer |
| `Binary32.TiesGoToEven` | src/solace.c:590-590 | of two equally near the one with the even significand |
| `Binary32.SurvivesIff` | src/solace.c:590-590 | an integer survives if and only if it is m * 2^e with m below 2^24 |
| `OtherPublishers.IntegerArrivesIff` | src/solace.c:571-594 | an integer field of any publisher arrives with its value, except exactly an unsigned 32-bit one from 2^31 on and an unsigned 64-bit one that is no m * 2^e with m below 2^24 |
| `OtherPublishers.DecodeKeepsPlaces` | src/solace.c:510-638 | at every place of a message, however deep, stands what the field there decodes to, and there are no other places |
| `OtherPublishers.NullsStandForValueless` | src/solace.c:601-634 | a null pointer stands at a place exactly where a byte array or a field without a value stood, but for the outermost field of a message with a raw attachment |
| `OtherPublishers.NoNullsReceived` | src/solace.c:641-890 | whatever is published from kdb+, supported or not, no null pointer is received at any place |
| `RoundTrip.SwitchesAgree` | src/solace.c:705-842 | the type switch for atoms and the one for vector elements agree on every type |
| `RoundTrip.SupportedArrives` | src/solace.c:494-890 | a supported value reports OK, leaves the global rc at OK, and arrives as its normal form |
| `RoundTrip.FaithfulIffSupported` | src/solace.c:641-963 | for any value, atoms included, the subscriber gets the normal form of all of it if and only if the value is supported |
| `RoundTrip.OkDoesNotMeanComplete` | src/solace.c:671-701 | an instance: a list with an unsupported item is sent and arrives without the item |
| `Silencing.ItemLeaves` | src/solace.c:757-787 | the global rc after an item is FAIL exactly if it was FAIL before or the item holds a dictionary whose last value failed |
| `Silencing.ItemIsBuiltIff` | src/solace.c:641-787 | in the message built for any list, a supported item stands in full in its place if and only if it holds no non-empty dictionary or no item before it left the global rc at FAIL |
| `Silencing.ItemArrivesIff` | src/solace.c:641-942 | the subscriber gets a supported item of a list in full, in its place, if and only if the last item lets the list be sent and the former condition holds |
| `Silencing.ReportsOkIff` | src/solace.c:641-890 | the values that report OK: for a list its last item decides, a nested list always reports OK, and a dictionary only if nothing up to it left the global rc at FAIL |
| `Silencing.FailedDictSilencesNext` | src/solace.c:769-771 | an instance: after a dictionary that failed a good one is lost, while the item after it arrives |
| `Silencing.LastItemWithholdsList` | src/solace.c:938-942 | an instance: a list whose last item fails is not sent, and a supported item is lost with it |
| `Representation.RepresentationIsInvisible` | src/solace.c:641-871 | spelling typed vectors out as lists, anywhere in a value, changes no field and no global result, and changes the result code if and only if the value is an empty vector or a list ending in an unsupported one |
| `Representation.SpellingArrivesIff` | src/solace.c:641-942 | the subscriber gets the same for both spellings, or nothing for both, if and only if the value is not one of those |
| `Representation.SameExpansionArrivesIff` | src/solace.c:641-942 | values that differ only in spelling build the same message, and arrive alike if and only if both or neither are among those |
| `Representation.EmptyVectorAndEmptyList` | src/solace.c:644-671 | the first kind: at top level an empty vector is sent and the empty list is not |
| `Representation.GuidVectorAndGuidList` | src/solace.c:672-697 | the second kind: a list of a guid vector is not sent; spelled out it is, without the guid |
| `Republishing.RepublishableIff` | src/solace.c:598-600 | what was received can be published again in full if and only if no dictionary value is a symbol and the value was not an empty vector |
| `Republishing.SecondTripIsIdentityIff` | src/solace.c:494-890 | for a republishable value the second trip changes nothing if and only if there is no symbol in it |
| `Republishing.ThirdTripIsIdentity` | src/solace.c:494-890 | with symbols outside dictionaries the third trip changes nothing |
| `TopicTable.AcceptedIffNoError` | src/solace_k.c:423-518 | a request took effect on the table exactly when the answer is not an error of the library, whatever the broker returned |
| `TopicAnswers.OpenIff` | src/solace_k.c:87-117 | a session is open exactly if an init with a dictionary and a connection came and neither an accepted disconnect nor a session-down event since |
| `TopicAnswers.RowsAreSubscribed` | src/solace_k.c:444-468 | the table has as many rows as there are topics with an accepted subscribe, and lists exactly those |
| `TopicAnswers.AnswersTell` | src/solace_k.c:87-518 | over any history, for every request: when the answer is fine, when the broker's refusal, and for each reason string exactly when it is that one |
| `TopicTable.TableSummarisesLog` | src/solace_k.c:423-518 | after any history the table lists exactly the distinct topics with an accepted subscribe this session, in first-request order, flagged by their latest accepted request |
| `TopicTable.TopicsStay` | src/solace_k.c:444-468 | during a session topics keep their place and the table only grows |
| `TopicTable.FullTableRefuses` | src/solace_k.c:433-433 | once 250 topics are listed every later subscribe of the session is refused and changes nothing |
| `TopicTable.ResubscribeIff` | src/solace_k.c:433-468 | a subscribe for a listed topic takes effect if and only if the table is not full or the topic was subscribed anyway |
| `TopicTable.UnsubscribeIsFinal` | src/solace_k.c:433-468 | after any 250 distinct topics, one of them unsubscribed: the subscribe for it is answered maxtopics and it stays unsubscribed |
| `TopicTable.TableCanFill` | src/solace_k.c:433-433 | there is such a history |
| `TopicRegistry.Registry.constructor` | src/solace_k.c:24-31 | no session and no name allocated |
| `TopicRegistry.Registry.Init` | src/solace_k.c:87-117 | opens an empty table or answers why not; the names left by sessions that were cut off stay allocated |
| `TopicRegistry.Registry.FindTopicInList` | src/solace_k.c:413-421 | the first slot with the topic, or -1; reads only live names |
| `TopicRegistry.Registry.AddTopic` | src/solace_k.c:447-460 | appends a subscribed row backed by a fresh name |
| `TopicRegistry.Registry.MarkSubscribed` | src/solace_k.c:463-466 | sets the flag of one row and changes nothing else |
| `TopicRegistry.Registry.Subscribe` | src/solace_k.c:423-480 | table and answer as the request demands, whatever the broker says; at most one name allocated, those left behind earlier untouched |
| `TopicRegistry.Registry.Unsubscribe` | src/solace_k.c:482-518 | clears the flag of a listed topic; unknown topics change nothing |
| `TopicRegistry.Registry.GetTopics` | src/solace_k.c:564-598 | the table, or noinit |
| `TopicRegistry.Registry.FreeTable` | src/solace_k.c:293-297 | frees exactly the names of the table, each of them live |
| `TopicRegistry.Registry.SessionDisconnect` | src/solace_k.c:275-302 | ends the session and frees its table, and leaves the names left behind earlier as they are |
| `TopicRegistry.Registry.SessionDown` | src/solace.c:116-124 | ends the session and frees nothing: the names of its table join those left behind |
| `TopicRegistry.Serve` | src/solace_k.c:87-518 | any history in place: state and answers are those of the value model, and the names left behind are exactly those of the sessions that were cut off |
| `TopicRegistry.ServeWithoutLeak` | src/solace_k.c:275-302 | from a closed state to a closed state without a cut-off session, the heap is as it was |
| `TopicRegistry.AllocatedNames` | src/solace_k.c:447-460 | in every valid state the names allocated are those left behind and those of the open table, each at an address of its own |

## Left out

- Everything the Solace client library does beyond containers and result codes: sessions, contexts, properties,
  compression, timestamps, the binary attachment of messages that hold no container.
- The byte capacity of containers: the 1024-byte buffers are assumed to be large enough.
- Reference counting, symbol interning and the `b9`/`d9` format of kdb+.
- Datetime (type 15) values, which are sent through the 32-bit real field, and enum and function values.
- In-place termination of topic strings: topics are strings without NUL.
- Wrap-around of the message counters after 2^31 messages, and memory ordering weaker than sequential consistency.
- Writes to the global `rc` by the Solace thread while the q thread encodes a dictionary.
- A session-down event in the middle of init, subscribe or disconnect: requests and the event are atomic here.
- config_opts, getopts, printargs, getcbstats, getstats, logging and the q scripts: one-branch plumbing or display.
- FeedHandlers.FeedHandler.WriteToBuffer: asks for a message that fits the staging buffer, because the code copies it there before it looks at its size.
- CircularBuffers.CircularBuffer.CbRead: a call that has to wait is reported as parked; the code never makes one.
- CircularBuffers.CircularBuffer.CbWrite: a call that has to wait is reported as parked; what happens while it waits is in the protocol.

# Air-gap transfer: a verified model

This project models the parts of the air-gap transfer programs that have to be right for data to cross a one-way
link and for the loss of data to be seen, and proves what they promise. The programs are Go (`src/`) and a Python
utility; the model is Dafny, and `dafny verify dfyconfig.toml` checks all of it.

Six subjects, hardest first:

* **Fragments and reassembly** (`Formatter`, `Splitting`, `Parser`, `Network`, `Delivery`, `Completion`,
  `Truncation`, `Deliverable`, `Framing`, `MessageTypes`, `Text`, `Upstream`, `Downstream`, `Routing`, `Transfer`,
  `TransferOnce`, `Crossing`, `Dispatching`, `TcpPath`). A payload is split into self-describing packets, and rebuilt
  behind a network that drops, repeats, reorders and interleaves them, by several workers that share one cache. On top
  lie the TCP framing, the way of a Kafka record from the upstream handler to the downstream writer for all
  combinations of encryption and compression, and what downstream does with every other type of message.
* **Tamper-evident log** (`Integrity`, `Signing`, `Tampering`, `LogWriter`, `LogVerifier`, `LogSettings`,
  `LogIdentities`, `LogSigning`, `LogGenesis`, `LogWindows`, `LogTrust`). The writer is a state machine with
  reconfiguration and signer rotation. A verifier that reads a log record by record is defined by itself. Every run of
  the writer is proved to chain; it is accepted if and only if no segment is opened under a name other than that of its
  genesis value; and what chaining and acceptance mean is proved about the verifier alone: windows tile, a signed
  checkpoint commits to its window, signers are authorised by hashed bodies, and a segment cannot be spliced into the
  log of another process. No hash function is assumed to be free of collisions: the theorems compute the two colliding
  inputs from two histories that should not agree.
* **Gap tracking and recovery** (`GapTracker`, `GapState`, `Recovery`, `TopicRecovery`, `Resend`). The interval list
  refines the set of numbers received; the records of the gap topic become live windows, their bitmaps become ranges,
  and ranges become a resend filter and a start offset.
* **TCP client** (`TcpClient`, `TcpProgress`). Goroutines interleave between the critical sections of the adapter
  while the lock is released for a dial: what never happens in any interleaving, and that a sender gets to write.
* **Repetition suppression** (`Repetition`, `RepetitionCache`, `Suppression`). A bounded cache with eviction, expiry
  and a timer: no call is lost, and which messages are suppressed and when they are reported, by the times of the calls.
* **Load balancing and rate limiting** (`LoadBalance`, `TokenBucket`). Generated filters read back by the program
  that uses them, and the token bucket over the reals.

Code that updates state in place is a class whose methods are proved equal to a step function on values; the
theorems are about those functions and about runs of them. Go visits a map in no fixed order: where that shows, the
order of a visit is an argument of the step function, and the theorems hold for every order. MD5, SHA, Ed25519,
AES, gzip, JSON and bitmaps are arguments too; where a theorem needs two of them to undo each other, it asks so of
the payload at hand only. Clocks, random identities, dial results and network behaviour are inputs of each step.

## What the code does other than promised

The model follows the code. These results say where it departs from its own intent:

* A payload whose length is a positive multiple of the room in a packet declares one part too many
  (`src/protocol/formatter.go:29`), so it never completes: `Splitting.DeclaredIsEmittedIff`,
  `Splitting.ExactMultipleDeclaresOneMore`, `Network.MiscountedIsNeverDelivered`.
* When the part count overflows uint16 the formatter logs that the message will not be delivered
  (`src/protocol/formatter.go:31-36`). A part of it can be delivered under its id: `Truncation.DeliveredAsItselfIff`.
* The loop variable of `assembleMessage` is a uint16, so an entry of 65535 parts never assembles
  (`src/protocol/parser.go:16-30`); the condition `Network.Completes` excludes it.
* A message completed by two workers at once is delivered twice, since its entry is removed in a second critical
  section (`src/protocol/parser.go:133-149`): `Delivery.CoveredIffOneWorker`. With n workers a message is delivered at
  most n times for each arrival of any of its fragments: `Delivery.WorkersBoundDeliveries`.
* A topic with an underscore keeps its id unchanged upstream and goes to the configured topic and partition 0
  downstream: `Routing.RecordIsRouted`.
* The total that `GetFirstGaps` reports adds `To - From` for each gap and is short by one for each:
  `GapTracker.TotalUndercounts`. Negative numbers are reported as duplicates: `GapTracker.DuplicateIffReceived`.
* With overlapping windows the start offset can skip an offset that the filter would pass: `Recovery.OverlapSkips`;
  `Recovery.StartSkipsNoneIff` says exactly when it does not.
* A record is resent under its untranslated topic, so its key changes if the topic is translated and holds no
  underscore: `Resend.ResentUnderSameKeyIff`.
* `SetServiceName` (`src/logging/otel.go:84-91`) does not restart the chain although the genesis value is bound to
  the service name (`doc/Logging.md:376-383`). Called between a restart of the chain and its first record, it makes
  that record name a process whose genesis value it does not start from: `LogGenesis.RenamedRunIsAcceptedIff` is that
  run, and `LogGenesis.EveryRunIsAcceptedIff` says for all runs when the binding holds.
* The names in the genesis value are separated by a zero byte (`src/logging/integrity.go:205-216`), so the value
  determines its process if and only if neither name holds one: `LogGenesis.GenesisNamesProcessIff`. For names that do,
  `LogGenesis.DividedIsConfused` constructs another process with the same value. The theorems against splicing ask for
  names without zero bytes of one of the two processes only, so the other may call itself anything.
* The event name of a record is outside the protection of the log (`doc/Logging.md:361-374`), so any record can be
  relabelled as an announcement of a new signer. A verifier takes it for one if and only if its hashed body is the text
  of that announcement: `LogTrust.RelabelledIff`. A signer that no signed body announces is never trusted, unless the
  hash function collides: `LogTrust.SuccessorIsSigned`.
* A deliver filter whose thirds all start with the same number has period 0. Reading it divides by zero if its last
  number is positive (`src/filter/filter.go:131-132`), and otherwise the first offset it is asked about does:
  `LoadBalance.LoadsIff`.
* A record is sent under an id that begins with `PIN_TLS` exactly if the topic in its key does: its own topic if that
  holds an underscore, else the translated one. Downstream rejects its packets as rotation frames
  (`src/downstream/downstream.go:164-172`), so nothing is ever written under its key, whatever arrives:
  `Crossing.RotationTopicIsLost`. Over TCP without pinned TLS such a packet also ends the connection, and no packet
  behind it is passed on (`src/downstream/adapters.go:643-653`): `TcpPath.PassedAreInFront`.

## Model

| member | source | states |
|---|---|---|
| Formatter.FormatMessage | src/protocol/formatter.go:68-188 | The packets are the parts of the message in order, header and payload byte by byte; the process panics when the header leaves no room |
| Formatter.SendParts | src/protocol/formatter.go:104-185 | The loop emits one packet for each part, numbered in uint16 |
| Formatter.OnePacket | src/protocol/formatter.go:106-181 | The appends build type, number, count, id length, id, checksum, payload length and payload in this order |
| Formatter.NextPayload | src/protocol/formatter.go:151-170 | The slice taken at a position is the next chunk, or the rest |
| Splitting.SplitShape | src/protocol/formatter.go:100-187 | Every part repeats one header, is numbered by its place, fits the room, and the payloads put end to end are the message |
| Splitting.PartsNeededIsDivision | src/protocol/formatter.go:105-185 | The number of parts emitted is the length divided by the chunk, rounded up |
| Splitting.DeclaredIsEmittedIff | src/protocol/formatter.go:17-38 | The declared count is the emitted count if and only if the payload is empty, or its length is no multiple of the chunk and the count fits uint16 |
| Splitting.ExactMultipleDeclaresOneMore | src/protocol/formatter.go:29-29 | At a positive multiple of the chunk, one part too many is declared |
| Splitting.RoomIff | src/protocol/formatter.go:17-38 | Packets are produced if and only if the message is empty or the header leaves room |
| Splitting.PartsFromShape | src/protocol/formatter.go:105-185 | The i-th part carries the header counted on by i and between 1 and chunk bytes |
| Splitting.PayloadsConcatenate | src/protocol/formatter.go:105-185 | The payload slices concatenate to the message for every chunk size |
| Parser.MessageCache.AddPartAndSnapshot | src/protocol/cache.go:45-82 | A new id is refused when the cache is full; otherwise the part is stored, with 30 s and 1 ms to live if the id is new, the first declared count is kept, and completeness is by number of distinct parts |
| Parser.MessageCache.RemoveEntry | src/protocol/cache.go:112-116 | Exactly this id disappears |
| Parser.MessageCache.SetLimits | src/protocol/cache.go:136-141 | The limits change and no entry does |
| Parser.MessageCache.CleanList | src/protocol/cache.go:165-186 | Exactly the entries past their end disappear |
| Parser.AssembleMessage | src/protocol/parser.go:16-30 | The parts 1 to n joined, or an error when one is missing or the uint16 loop variable wraps |
| Parser.ReadPacket | src/protocol/parser.go:53-131 | The header checks accept a packet exactly when the lengths add up, the count is allowed and the checksum matches |
| Parser.ParseMessage | src/protocol/parser.go:53-150 | One call is one step of the receiving state machine: failure, nothing yet, or the assembled message with its entry removed |
| Parser.DecodeEncode | src/protocol/parser.go:53-131 | Decoding an encoded part gives it back, if its lengths fit uint16 and its count is allowed |
| Network.SendOfShaped | src/protocol/formatter.go:68-188 | Every message that can be formatted is sent as parts ParseMessage can read |
| Network.PacketDecodes | src/protocol/parser.go:53-131 | A packet of a sent message decodes to its part unless it declares too many |
| Network.ReceiveThenFinishIsStep | src/protocol/parser.go:133-149 | A worker that is not interrupted between its two critical sections performs one call of ParseMessage on the bytes |
| Network.CompleteEntry | src/protocol/cache.go:80-81 | An entry is complete only for an exactly counted message, and then assembles to its payload |
| Network.NextGood | src/protocol/parser.go:133-149 | Every step of the network keeps that entries, busy workers and deliveries hold only what was sent |
| Network.DeliveredWasSent | src/protocol/parser.go:53-150 | In every run with any number of workers, all that is delivered was sent, unaltered, counted exactly and in fewer than 65535 parts |
| Network.MiscountedIsNeverDelivered | src/protocol/formatter.go:17-38 | A message that is not counted exactly is never delivered, in any run |
| Network.CacheIsBounded | src/protocol/cache.go:45-82 | In every run the cache never holds more entries than the largest limit it has had |
| Delivery.WorkersBoundDeliveries | src/protocol/parser.go:133-149 | In every run, n workers deliver a multi-part message at most n times for each arrival of any of its fragments |
| Delivery.OneWorkerCovers | src/protocol/parser.go:133-149 | One worker delivers a multi-part message at most as often as its least often arrived fragment |
| Delivery.RaceDeliversTwice | src/protocol/parser.go:133-149 | From any limits, a run of any two workers delivers a message twice although a fragment arrived once |
| Delivery.CoveredIffOneWorker | src/protocol/parser.go:133-149 | Whatever the limits, the bound by arrivals holds in all runs if and only if there is at most one worker |
| Completion.HandleIsParseMessage | src/protocol/parser.go:53-150 | Handling a part is ParseMessage on its bytes |
| Completion.CollectsWhatArrived | src/protocol/cache.go:69-81 | While a part is missing, the entry holds exactly the parts that arrived |
| Completion.CompletesAtLastMissingPart | src/protocol/parser.go:133-149 | In any order and with repeats, the message comes out exactly at its last missing part, and its entry is gone |
| Completion.CollectsInRounds | src/protocol/cache.go:69-81 | Over any arrivals and any number of completions, the cache holds exactly the parts since the message last came out |
| Completion.RoundsAndCopies | src/protocol/parser.go:133-149 | A message becomes complete at most as often as each of its parts arrived, and at least once if all did |
| Completion.OnceIfNotRepeated | src/protocol/parser.go:133-149 | If every part arrives and one of them only once, the message comes out once |
| Completion.CompletesWithin30Seconds | src/protocol/cache.go:11-14 | A message whose parts arrive within 30 s of the first comes out at its last missing part, whatever ticks of the cleaning thread fall in between |
| Completion.ExpiresAfterLifetime | src/protocol/cache.go:126-132 | The entry of an incomplete message is there before, and gone after, any tick more than 30.001 s behind its first part |
| Completion.EntryIsKept | src/protocol/cache.go:49-81 | While an entry lasts, its first part decides its count and its end, and only the part that arrives changes |
| Truncation.DeliveredAsItselfIff | src/protocol/formatter.go:29-37 | Whatever is delivered for a message is the message, in all runs, if and only if its count fits uint16, or the truncated count is too large for the receiver or 65535 |
| Truncation.TruncatedDeliversPrefix | src/protocol/formatter.go:29-37 | With a truncated count of 2 to 65534 that the receiver allows, some run delivers, under the message's id, its first parts: a strictly shorter prefix |
| Truncation.TruncatedDeliversFragment | src/protocol/formatter.go:29-37 | With a count truncated to 0 or 1, some run delivers the first fragment, strictly shorter, as the message |
| Deliverable.DeliverableIff | src/protocol/parser.go:53-150 | Some run delivers a message if and only if it is counted exactly, in fewer than 65535 parts and no more than the receiver allows, and the cache has room for an entry unless one packet suffices |
| Framing.Reader.ReadFull | src/downstream/adapters.go:699-758 | All bytes asked for, or an error after the rest of the stream is consumed |
| Framing.Reader.ReadMessage | src/downstream/adapters.go:699-758 | The next frame and the position behind it, or an error at the check that fails |
| Framing.ReadsBackIff | src/downstream/adapters.go:699-758 | A packet is read back from a stream, whatever surrounds it, if and only if its id is at most 1024 bytes and no rotation payload is too long |
| Framing.StreamReadsBack | src/downstream/adapters.go:699-758 | The framing is a prefix code: any list of such packets, concatenated, is read back as it was and consumes the stream |
| Framing.EncodeDecode | src/protocol/parser.go:53-131 | What ParseMessage accepts is a fixed point of parsing and encoding |
| MessageTypes.KindOfTypeFor | src/protocol/messageTypes.go:24-35 | The four types sent upstream are told apart downstream |
| MessageTypes.KindOfPlain | src/protocol/messageTypes.go:3-9 | What each type without flags stands for downstream |
| MessageTypes.KindOfFlagged | src/protocol/messageTypes.go:24-30 | With any flag set a type stands for a record: in clear text if it holds both bits of 6, else encrypted; compressed if it holds 32 |
| Text.SplitJoin | src/upstream/upstream.go:114-139 | Splitting an id undoes joining its fields when no field holds the separator |
| Text.SplitCount | src/protocol/parser.go:33-49 | An id has one field more than separators |
| Text.AtoiItoa | src/upstream/upstream.go:122-136 | Reading a printed int64 gives it back |
| Upstream.KafkaHandler | src/upstream/upstream.go:466-602 | What is sent for a record: dropped, process exit, to be retried, or a message with id, type and wire payload |
| Downstream.Receiver.HandleUdpMessage | src/downstream/downstream.go:164-314 | One packet: rejected, failed, nothing, a Kafka write, or a forwarded message, with the new cache and key exchange time |
| Downstream.Receiver.HandleMessage | src/downstream/downstream.go:206-314 | The dispatch on the message type, with destination and rate limit of key exchanges |
| Downstream.Receiver.Deliver | src/downstream/downstream.go:217-287 | Decryption, decompression, the partition check and the write, or the error sent instead |
| Routing.RecordIdSplits | src/kafka/getkafka.go:1106-1106 | A record id splits into its three fields if and only if the topic has no underscore |
| Routing.KeyOfRecord | src/upstream/upstream.go:114-139 | The key is the id with topic translated and partition shifted, the unchanged id for a topic with an underscore, or process exit out of int32 |
| Routing.DestinationOfKey | src/downstream/downstream.go:206-214 | Downstream reads topic and partition back from the key, or falls back to the configured topic and partition 0 |
| Routing.RecordIsRouted | src/upstream/upstream.go:114-139 | Topic and partition of every record at its destination, both translations applied |
| Transfer.RecordIsRecovered | src/upstream/upstream.go:444-602 | For all combinations of encryption and compression, what is sent is recovered: nothing if the input filter denied the record, the guard for a value that is too large or cannot be encrypted, else its value; if the codecs used undo each other and the decompression limit admits a payload that was compressed |
| Transfer.SentIff | src/upstream/upstream.go:466-602 | A record is sent if and only if it is not older than the configured time, the deliver filter takes its offset, its partition stays within int32, and it or its guard can be packed; then under its key, with a type that says how it is packed |
| Transfer.NotSent | src/upstream/upstream.go:466-602 | What becomes of every other record: dropped, process exit for a partition outside int32, or a retry when its guard cannot be encrypted |
| Transfer.DeniedIsCleared | src/upstream/upstream.go:495-517 | A record that the input filter denies is handled the same whatever its value |
| Transfer.ReceiveAllHandles | src/downstream/downstream.go:164-204 | Any sequence of packets drives the cache exactly as its decoded arrivals do |
| Transfer.RotationIffPrefix | src/internal/pinnedtls/rotation_wire.go:180-186 | A packet is taken for a rotation frame if and only if its id starts with PIN_TLS |
| Transfer.PacketOfMessage | src/downstream/downstream.go:164-314 | After any other input, the packet that completes a message dispatches it, and an earlier one does nothing |
| Transfer.RecordIsTransferred | src/downstream/downstream.go:164-287 | A record crosses the link: its completing packet writes one record under its key, to the translated topic and shifted partition, or to the configured topic and partition 0 when the topic in the key holds an underscore, with the payload it was to carry; no earlier packet writes |
| Dispatching.WrittenOrReported | src/downstream/downstream.go:217-287 | The packet that completes a record writes its value, reports an error under its id if it cannot be decrypted or decompressed within the limit, and ends the process for a partition outside int32 |
| Dispatching.KeyIsReadIff | src/downstream/downstream.go:289-303 | In any run, a completed key exchange is read if and only if the minimum interval has passed since the last key read, and dropped otherwise |
| Dispatching.KeyReadsAreSpaced | src/downstream/downstream.go:289-303 | In every run, two keys are read at least the minimum interval apart |
| Dispatching.OtherIsPassedOn | src/downstream/downstream.go:305-313 | A completed error report is passed on under its id, a fragment type is ignored, and any other text is passed on as a message |
| Dispatching.RunningIffParsing | src/downstream/downstream.go:172-204 | The transport status is that of the last packet that was no rotation frame: running if and only if it could be parsed |
| TransferOnce.RecordIsWrittenInRounds | src/downstream/downstream.go:164-287 | Over any input sequence, the writes under a record's key are the expected write, once for each time its packets became complete |
| TransferOnce.RecordIsWrittenOnce | src/downstream/downstream.go:164-287 | If all packets of a record arrive, in any order and among any other input, and one of them is not repeated, then exactly one write occurs under its key, and it is the expected one |
| Crossing.MessageCrossesIff | src/downstream/downstream.go:164-204 | Some arrivals of its packets bring a message out downstream, unaltered, if and only if it can cross in this sense |
| Crossing.RecordCrossesIff | src/downstream/downstream.go:164-287 | Some arrivals of its packets end in the expected write if and only if a record's message is counted exactly, below 65535 parts and no more than allowed, its id is no rotation id, and the cache has room unless one packet suffices; a count that overflows uint16 is covered where nothing shorter than the wire payload is recovered as the payload |
| Crossing.CleartextIsDistinct | src/downstream/downstream.go:217-250 | What is sent neither encrypted nor compressed is recovered from the whole wire payload only |
| Crossing.NotWritten | src/downstream/downstream.go:164-287 | No arrivals of its packets write a record that cannot cross as expected, and if its count fits uint16 they write nothing under its key |
| Crossing.RotationTopicIsLost | src/downstream/downstream.go:164-172 | A record is sent under a rotation id if and only if the topic in its key begins with PIN_TLS, and is then never written, from any state and whatever arrives |
| Crossing.ReceiversBoundWrites | src/downstream/downstream.go:164-287 | In every run of n receivers on one cache, whatever is written under a record's key is the expected write, and a record in several packets is written at most n times for each arrival of any of them |
| TcpPath.HandleConnection | src/downstream/adapters.go:608-687 | The loop passes on the frames up to the first read error or rotation frame, without a pin manager |
| TcpPath.PassedAreInFront | src/downstream/adapters.go:608-687 | Of any packets put end to end, exactly those in front of the first with an id over 1024 bytes or a rotation id are passed on |
| TcpPath.RecordOverTcp | src/downstream/adapters.go:608-687 | A record whose packets are on a TCP stream, among other packets that do not end the connection and one of them once, is written exactly once, as expected |
| Integrity.IntegrityState.ResetChain | src/logging/integrity.go:187-217 | The chain restarts from its genesis value under new identities, and the sequence number goes on |
| Integrity.IntegrityState.ConfigureIntegrity | src/logging/integrity.go:146-164 | A supported algorithm restarts the chain, none disables it, an unsupported one changes nothing |
| Integrity.IntegrityState.SetChainLength | src/logging/integrity.go:168-176 | A negative length changes nothing, any other restarts the chain |
| Integrity.IntegrityState.Stamp | src/logging/integrity.go:230-280 | A number is used only when hashing is enabled; the chain moves and the restart mark is spent only when chaining |
| Integrity.IntegrityState.AnchorAttributes | src/logging/integrity.go:331-346 | The range of an anchor ends with its own number, and the next begins behind it |
| Integrity.IntegrityState.CloseWindow | src/logging/integrity.go:351-354 | The counter is cleared and the window gets a new identity |
| Signing.BuildCheckpointStatement | src/logging/signing.go:249-268 | Domain, framed strings, three integers and two framed digests in this order |
| Signing.FrameCut | src/logging/signing.go:214-223 | A framed value is told apart from what follows it |
| Signing.StatementInjective | src/logging/signing.go:231-268 | Equal statements have equal fields |
| Tampering.ChainInputInjective | src/logging/integrity.go:285-318 | A chain step commits to the previous value, number, time, severity and payload hash, each by itself |
| Tampering.SameChainSameHistory | src/logging/integrity.go:285-318 | Two equally long histories with one final chain value are equal record by record and start alike, or two colliding inputs are computed from them |
| LogWriter.Logger.WriteOne | src/logging/logging.go:108-115 | A record goes out with its stamp, and the state moves by one stamp |
| LogWriter.Logger.SignOne | src/logging/signing.go:279-372 | No signature without a signer; an error without chain, outside validity or when signing fails; else a signature over the statement's hash |
| LogWriter.Logger.WriteOneAnchor | src/logging/logging.go:198-214 | The anchor is stamped, signed and written in this order, also when signing fails |
| LogWriter.Logger.Write | src/logging/logging.go:187-195 | A record, and an anchor behind it when the window is full |
| LogWriter.Logger.WriteAll | src/logging/repetition.go:74-83 | Pending summaries are written one by one, each with its anchor if due |
| LogWriter.Logger.RotateSigningCertificate | src/logging/signing.go:393-493 | All outcomes of a rotation with the records each writes and the signer it leaves |
| LogSettings.StampedAsSet | src/logging/integrity.go:146-280 | Every record of every run is numbered and hashed if and only if the last valid setting is a hash, with that hash, and chained if and only if a chain length is set too; what is written stays |
| LogIdentities.IdentitiesTell | src/logging/integrity.go:187-195 | In every run: one run identity; two chained records share the segment identity if and only if no restart lies between them, and the window identity if and only if no anchor does either; no identity stands for two of run, segment and window |
| LogSigning.AnchorIsSigned | src/logging/signing.go:279-372 | The anchor written last is signed if and only if a signer is configured, its certificate is valid at that time, and its key signs the statement of the anchor |
| LogSigning.EveryAnchorIsSigned | src/logging/signing.go:279-372 | In every run this holds of every anchor, with the signer and clock at its writing; without signer it is unsigned, else it carries an error |
| LogSigning.RotationSucceedsIff | src/logging/signing.go:447-492 | A rotation to another certificate while chaining is authenticated if and only if the old signer can sign the anchor over the announcement |
| LogSigning.OtherRotations | src/logging/signing.go:393-446 | What every other rotation does: refused, unchanged, or the first signer installed, without a record |
| LogVerifier.RecordFollows | src/logging/integrity.go:230-280 | The next record of any writer the verifier follows chains on, and is followed; a restart record is bound to its process if and only if the chain starts from that process's genesis value |
| LogVerifier.AnchorChains | src/logging/logging.go:198-214 | The anchor that closes a window chains on, with its range and signature |
| LogVerifier.RotateRead | src/logging/signing.go:393-493 | Every rotation chains on, with the successor named in its hashed body, and hands trust to the signer that the writer installs |
| LogVerifier.EveryRunChains | src/logging/logging.go:176-214 | Every log of every run of messages, reconfigurations and rotations chains, and the verifier then knows the writer's next number, window, chain and signer |
| LogVerifier.NoAnchorIsDue | src/logging/integrity.go:322-326 | After any operations of any run, the window left open is shorter than the chain length, so every anchor that is due is in the log |
| LogVerifier.AcceptedIff | doc/Logging.md:376-383 | A log is accepted if and only if it chains and every segment starts from the genesis value of the process its restart record names |
| LogGenesis.GenesisInputInjective | src/logging/integrity.go:205-216 | A process whose names hold no zero byte shares its genesis input with no other process, whatever the names of that one |
| LogGenesis.GenesisNamesProcessIff | src/logging/integrity.go:205-216 | A genesis input determines its process if and only if neither name holds a zero byte |
| LogGenesis.DividedIsConfused | src/logging/integrity.go:205-216 | For every process with a zero byte in a name another one with the same genesis input is constructed |
| LogGenesis.RecordIsBoundIff | src/logging/integrity.go:274-277 | The record that opens a segment is bound to its process if and only if the process has the name of the genesis value, or the two inputs collide |
| LogGenesis.RunIsBoundIff | src/logging/otel.go:84-91 | In every run, all restart records are bound if and only if no segment is opened under another name than at its reset, collisions aside |
| LogGenesis.EveryRunIsAcceptedIff | src/logging/otel.go:84-91 | A run's log is accepted if and only if the run keeps its names in this sense |
| LogGenesis.UnrenamedRunIsAccepted | src/logging/logging.go:176-214 | Every log of every run without SetServiceName is accepted |
| LogGenesis.RenamedRunIsAcceptedIff | src/logging/otel.go:84-91 | In the run SetHash, SetChainLength, SetServiceName, Emit the first record starts from the genesis value of the old name, and the log is accepted only if the name is the same or the inputs collide |
| LogGenesis.SameStartSameProcess | doc/Logging.md:376-383 | Restart records with one start value name one process, or their genesis inputs collide; names without zero bytes are asked of one of the two, else the names run together alike |
| LogGenesis.SegmentCommits | src/logging/integrity.go:285-311 | A chain value commits to the whole segment before it, from the genesis value of the process that opened it |
| LogGenesis.SameChainSameSegment | doc/Logging.md:376-383 | Two segments, of any lengths, with one chain value have one history and one process (names without zero bytes asked of one of them), or two colliding inputs are computed from them; with long names instead possibly an input whose digest begins like a genesis input |
| LogGenesis.SameChainSameProcess | doc/Logging.md:376-383 | No splicing: records of two accepted logs with one chain value belong to the same segment of the same process, if the names of one of them hold no zero byte, or the same evidence against the hash function is computed |
| LogWindows.NumbersGrow | src/logging/integrity.go:182-186 | Sequence numbers are never reused |
| LogWindows.AnchorsTile | src/logging/integrity.go:322-354 | An anchor covers exactly the records of its segment with the numbers of its range; ranges start at a restart or behind the previous anchor and are no longer than configured |
| LogWindows.StretchChain | src/logging/integrity.go:285-311 | A chain value is that of the whole history before it |
| LogWindows.AnchorCommits | src/logging/integrity.go:331-346 | An anchor's chain value is that of its whole window |
| LogWindows.SameCheckpointSameWindow | src/logging/signing.go:279-372 | Two logs that chain, and so any two accepted ones, with the same checkpoint hash have the same window, record by record, or two colliding inputs are computed from them |
| LogTrust.TrustIsAuthorised | src/logging/signing.go:393-493 | Trust rests with the first signer or one named in the hashed body of a record inside an anchor its authorised predecessor signed |
| LogTrust.SignersAreAuthorised | src/logging/signing.go:393-493 | Whoever signs an anchor was authorised in this sense before it |
| LogTrust.SignerOfRunIsAuthorised | src/logging/signing.go:393-493 | In every run the process's signer is authorised by its own log |
| LogTrust.SuccessorIsSigned | doc/Logging.md:266-275 | The old signature authenticates the replacement: whatever log has the checkpoint hash of an anchor, a successor it makes its reader trust is named by a hashed body in that anchor's window, or two colliding inputs are computed |
| LogTrust.SamePlaceSameSuccessor | doc/Logging.md:266-275 | Announcements at one place of the windows of two logs with one checkpoint hash name the same successor if their texts tell successors apart, or two colliding inputs are computed |
| LogTrust.RelabelledIff | doc/Logging.md:361-374 | A general record relabelled as an announcement is accepted if and only if its hashed body is the text of that announcement |
| LogTrust.RotationFailsClosed | src/logging/signing.go:393-493 | A rotation that does not install or authenticate leaves the signer |
| LogTrust.RotationIsAnnounced | src/logging/signing.go:447-492 | An authenticated rotation ends the log with a record whose hashed body names the new signer and an anchor over it signed by the old one |
| LogTrust.AutomaticAnchorIsFull | src/logging/integrity.go:322-326 | An automatic anchor satisfies to - from = chain length |
| LogTrust.RestartMarksFirst | src/logging/integrity.go:274-277 | Exactly the first chained record of a segment carries the restart mark |
| RepetitionCache.Cache.FlushRepetition | src/logging/repetition.go:85-114 | A summary with the pending count goes out, and the count is cleared |
| RepetitionCache.Cache.ResetRepetition | src/logging/repetition.go:74-83 | All pending counts are reported, in some order, and cache and timer are cleared |
| RepetitionCache.Cache.FindOldest | src/logging/repetition.go:143-152 | The entry seen least recently |
| RepetitionCache.Cache.SuppressRepeated | src/logging/repetition.go:126-168 | A message is counted or written in full, with expiry, eviction, flush and timer |
| RepetitionCache.Cache.ScheduleTimer | src/logging/repetition.go:170-206 | A timer for the earliest due time, unless one is armed or the cache is empty |
| RepetitionCache.Cache.OnTimer | src/logging/repetition.go:187-204 | The callback reports overdue counts, forgets idle entries and arms the next timer; a stale timer does nothing |
| Repetition.SuppressConserves | src/logging/repetition.go:126-168 | A call loses no count of any key |
| Repetition.FireConserves | src/logging/repetition.go:187-204 | A timer loses no count of any key |
| Repetition.SuppressIsPunctual | src/logging/repetition.go:142-168 | A call keeps the cache within 1024 entries and its timer early enough |
| Repetition.FireIsPunctual | src/logging/repetition.go:187-204 | A timer leaves no entry overdue and arms the next in time |
| Repetition.NothingIsLost | src/logging/repetition.go:74-206 | In every run: calls = written in full + reported in summaries + pending, at most 1024 entries, and an armed timer due no later than any entry |
| Suppression.SuppressedIff | src/logging/repetition.go:126-168 | In every run, a message is suppressed if and only if suppression is on, it is not fatal, and its last call is less than an interval ago, neither reset nor evicted since; otherwise it is written in full once |
| Suppression.OthersWriteNoMessage | src/logging/repetition.go:74-206 | No other event writes a message in full |
| Suppression.RepeatIsReportedIff | src/logging/repetition.go:160-167 | A suppressed message is reported at once, with all repeats so far, if and only if the last output for it is an interval ago |
| Suppression.ReportIsDue | src/logging/repetition.go:170-206 | While repeats wait, a timer is due no later than an interval after the last output for the message |
| Suppression.TimerReportsIff | src/logging/repetition.go:187-204 | The timer reports the repeats of a message if and only if the last output for it is an interval ago |
| Suppression.ArmedForEarliest | src/logging/repetition.go:170-183 | A timer is armed early enough for every message in the cache and exactly for one, by the times of their calls and outputs |
| Suppression.EvictedIsOldest | src/logging/repetition.go:142-153 | A call that finds 1024 other messages gives up one that was called least recently |
| GapTracker.Tracker.GetGapForNumber | src/gap_util/gap_util.go:203-212 | The first gap that holds the number |
| GapTracker.Tracker.CheckNextNumber | src/gap_util/gap_util.go:60-172 | The gaps of the key after one number, and whether it is a duplicate; other keys are unchanged |
| GapTracker.Tracker.FirstGap | src/gap_util/gap_util.go:183-196 | The least gap start found before the limit, or -1, and the reported total of the key |
| GapTracker.Tracker.GetFirstGaps | src/gap_util/gap_util.go:174-201 | One visit of every key; each key with an old gap is listed exactly once, with its least one, and no other key is |
| GapTracker.CheckTracks | src/gap_util/gap_util.go:60-172 | One call keeps the gaps exact and reports a duplicate exactly for numbers received before and negative ones |
| GapTracker.GapsAreExact | src/gap_util/gap_util.go:60-172 | After any arrivals the gaps are exactly the maximal runs of missing numbers, each once, below the greatest received; no more gaps than numbers received; missing and received add up |
| GapTracker.GapsAreDated | src/gap_util/gap_util.go:94-163 | The time of a gap is that of the first arrival of a greater number than the gap's, and shrinking or splitting keeps it |
| GapTracker.FirstIsLeastOverdue | src/gap_util/gap_util.go:174-201 | What is reported of a key is the least number missing since before the limit, or that there is none |
| GapTracker.DuplicateIffReceived | src/gap_util/gap_util.go:60-172 | The call returns true if and only if the number came before or is negative |
| GapTracker.TotalUndercounts | src/gap_util/gap_util.go:174-201 | The reported total is short of the missing numbers by the number of gaps |
| GapState.WindowKeyInjective | src/create/create.go:72-74 | Windows of non-negative partition and offset never share a key |
| GapState.ParseKeyOf | src/create/create.go:79-104 | A key written as topic:partition:windowMin is read back |
| GapState.ParseLegacyKeyOf | src/create/create.go:79-104 | A legacy key topic_partition:windowMin is read back, also for topics with underscores, unless the topic is empty |
| GapState.LegacyIff | src/create/create.go:173-178 | A value is taken for the legacy format if and only if a brace comes first, blanks and line ends aside |
| GapState.Int64Of | src/create/create.go:243-244 | The eight bytes of an int64 are read back, negative ones included |
| GapState.BitmapToRanges | src/create/create.go:263-290 | The loop builds the maximal runs of the bitmap |
| GapState.RangesAreSeparated | src/create/create.go:263-290 | Ranges ascend with at least one position between them |
| GapState.RangesAreExact | src/create/create.go:263-290 | The ranges hold exactly the positions of the bitmap |
| GapState.BitmapIsMissing | src/create/create.go:222-260 | A position is missing if and only if it is in the bitmap |
| GapState.CountIsSize | src/gaps/gaps.go:302-312 | countMissing counts every missing offset once |
| GapState.LastRecordDecides | src/create/create.go:108-160 | The live window is the last binary record or tombstone if there is any, else the last legacy one |
| GapState.ReadOrderDoesNotMatter | src/create/create.go:108-160 | Sequences with equal subsequences for every window and format give equal live windows |
| GapState.TombstoneClearsIff | src/create/create.go:108-136 | A tombstone under a record's key clears its window if and only if key and payload agree on windowMin |
| GapState.LegacyTombstoneClearsIff | src/create/create.go:108-136 | A legacy record stands under the window in its JSON text; a legacy tombstone clears it if and only if it names the same topic, partition and windowMin; anything known in the newer format hides both |
| GapState.GapTopic.Record | src/create/create.go:108-136 | One gap-topic record sets or clears one window in one format, or fails without effect |
| GapState.GapTopic.Windows | src/create/create.go:147-160 | The live windows, binary before legacy |
| GapState.GapTopic.Superseded | src/create/create.go:163-171 | The number of live legacy records hidden by binary ones |
| Recovery.MergeGaps | src/create/create.go:521-555 | The gaps of all windows in order, as absolute offsets |
| Recovery.GroupWindows | src/create/create.go:490-510 | Each group holds exactly the windows with its key, in order of first appearance |
| Recovery.WriteResults | src/create/create.go:481-578 | One result for each group, windows sorted, in first mode the first gap only |
| Recovery.FilterAll | src/resend/resend.go:267-297 | An offset passes if and only if a gap of its topic and partition holds it |
| Recovery.FilterFirst | src/resend/resend.go:253-266 | The first result for topic and partition decides: everything from its first gap on |
| Recovery.SortedOrdered | src/create/create.go:513-516 | Windows are merged by ascending windowMin |
| Recovery.AllIsExact | src/resend/resend.go:267-297 | In all mode, exactly windowMin + r for missing positions r of live windows are resent |
| Recovery.StartSkipsNoneIff | src/resend/resend.go:96-115 | The start offset skips no missing offset if and only if the first window with gaps has the least first missing offset |
| Recovery.OverlapSkips | src/resend/resend.go:96-115 | Two overlapping windows for which it skips an offset that is missing and that the filter passes |
| Recovery.RecoveryIsComplete | src/resend/resend.go:96-297 | For windows that do not overlap, every missing offset passes in both modes and no start offset lies behind it |
| TopicRecovery.ResentIffReported | src/resend/resend.go:267-297 | For any records of the gap topic and any visit of the live windows, an offset is resent in all mode if and only if a record that no later one replaces and no binary one hides reports it missing |
| TopicRecovery.ReportedIsRecovered | src/resend/resend.go:96-297 | From the records of the gap topic: if the standing windows of a topic and partition do not overlap, every offset one of them reports is resent in both modes and no start offset lies behind it |
| TopicRecovery.ReportsBitmap | src/create/create.go:222-260 | A binary record under the key of its window reports exactly the positions of its bitmap, from the first offset in its header |
| TopicRecovery.ReportsWritten | src/create/create.go:210-260 | A record with version 1, two int64 offsets and a bitmap, under the key of its window, reports exactly first + position for the positions of the bitmap |
| TopicRecovery.BinaryReadIff | src/create/create.go:222-260 | A record of the newer format is read if and only if its header is whole, of version 1, and its bitmap is intact |
| TopicRecovery.ReportsJson | src/create/create.go:180-208 | A legacy record reports exactly the gaps in its JSON text, whatever its key |
| Resend.ResentUnderSameKeyIff | src/resend/resend.go:494-513 | A record is resent under its first key if and only if its topic holds an underscore or is not translated upstream |
| TcpClient.TCPAdapter.constructor | src/upstream/adapters.go:384-417 | One dial at once; its failure leaves an adapter without connection |
| TcpClient.TCPAdapter.LookForConnection | src/upstream/adapters.go:600-629 | First section of ensureConnected: a dead connection is closed, a live one is used, a closed adapter gives up |
| TcpClient.TCPAdapter.Dial | src/upstream/adapters.go:545-553 | No dial within the retry interval of the last |
| TcpClient.TCPAdapter.InstallConnection | src/upstream/adapters.go:639-661 | A connection of an older generation, of a closed adapter, or beside an installed one is discarded |
| TcpClient.TCPAdapter.FinishConnect | src/upstream/adapters.go:639-661 | A dialed connection is installed, or closed and left out, and the caller learns whether a connection is installed |
| TcpClient.TCPAdapter.ReloadTLSConfig | src/upstream/adapters.go:511-519 | New configuration, next generation, no installed connection |
| TcpClient.TCPAdapter.Shutdown | src/upstream/adapters.go:747-761 | Closed for good, no installed connection |
| TcpClient.ActKeeps | src/upstream/adapters.go:600-734 | One step keeps the installed connection current |
| TcpClient.ActRespects | src/upstream/adapters.go:600-734 | One step leaves what another goroutine holds |
| TcpClient.ActAccounts | src/upstream/adapters.go:600-734 | No open connection is lost by a step |
| TcpClient.NextSafe | src/upstream/adapters.go:600-761 | Every step of every goroutine, reload and Close keeps all of this |
| TcpClient.EveryRunIsSafe | src/upstream/adapters.go:384-761 | In every interleaving: the installed connection has the current configuration, none is installed after Close, each dialed one is installed, held by one goroutine or closed, one dials at a time and dials are apart |
| TcpProgress.LooksFirst | src/upstream/adapters.go:600-629 | A send goes on with a live connection, drops a dead one, and else waits to dial with the current configuration, or ends if the adapter is closed |
| TcpProgress.StartsConnected | src/upstream/adapters.go:384-417 | If the first dial succeeds, the first message needs no other |
| TcpProgress.DialEnds | src/upstream/adapters.go:545-553 | A dial that is refused or fails ends the call and changes nothing else |
| TcpProgress.WriteEnds | src/upstream/adapters.go:700-734 | A successful write or a second failure ends the call, a first failure reconnects |
| TcpProgress.InstalledIff | src/upstream/adapters.go:639-661 | A dialed connection is installed if and only if the adapter is open, not reloaded since the look, and without connection; beside another one the call goes on, else it fails |
| TcpProgress.DiscardedIsClosed | src/upstream/adapters.go:639-651 | A connection that is not installed is closed |
| TcpProgress.ConnectsUnlessChanged | src/upstream/adapters.go:600-671 | Whatever other goroutines do in between, ensureConnected ends with a connection unless there was a reload or Close since its look |
| TcpProgress.ReloadTakesEffect | src/upstream/adapters.go:511-519 | After a reload, until the next, only connections dialed with the new configuration are installed |
| TcpProgress.CloseIsFinal | src/upstream/adapters.go:747-761 | After Close no connection is installed and no goroutine writes that was not writing already |
| TcpProgress.SenderWrites | src/upstream/adapters.go:600-734 | From any safe open system, a goroutine that sends alone, with its dial let through and succeeding, gets to write on a connection of the current configuration |
| TcpProgress.SenderWritesAgain | src/upstream/adapters.go:674-734 | After a failed write it gets to write once more, on a new connection |
| LoadBalance.GenGroups | utils/loadbalance.py:9-19 | One round gives each pipe its number and those of the pipes behind it |
| LoadBalance.GenFilters | utils/loadbalance.py:1-22 | The filter of each pipe in three periods |
| LoadBalance.SortedFacts | utils/loadbalance.py:40-43 | Sorting keeps the numbers of a filter |
| LoadBalance.SortedAscends | utils/loadbalance.py:40-43 | Sorted filters ascend |
| LoadBalance.SortedFilter | utils/loadbalance.py:40-43 | A sorted filter is its first period and two shifted copies |
| LoadBalance.PosModIsModulo | src/filter/filter.go:100-109 | posMod is the mathematical remainder, also for negative offsets |
| LoadBalance.Check | src/filter/filter.go:82-90 | Acceptance is membership of the position in the first group |
| LoadBalance.DoSelfTest | src/filter/filter.go:122-153 | The test passes if and only if every number up to the largest is accepted exactly when listed |
| LoadBalance.NewFilter | src/filter/filter.go:35-80 | All outcomes of reading a configuration: count not divisible, unexpected start, failed self test, division by zero, or the filter |
| LoadBalance.LoadsIff | src/filter/filter.go:35-80 | A configuration loads if and only if the count of its numbers is a multiple of three, the thirds start at equal distances, and up to the last number exactly those are listed whose place in the period is in the first third; each failure has its outcome; the filter has this period and first third |
| LoadBalance.GeneratedLoads | src/filter/filter.go:35-80 | Every generated, sorted and printed filter passes the group check and the self test with period p |
| LoadBalance.CoveredExactly | utils/loadbalance.py:1-22 | For every integer offset exactly r + 1 of the p generated number sets hold its position |
| LoadBalance.EveryOffsetIsDelivered | src/filter/filter.go:35-90 | Printed by the generator and loaded by the filter program, exactly r + 1 of the p filters accept every integer offset |
| TokenBucket.Limiter.Turn | src/upstream/upstream.go:41-56 | One turn refills up to the capacity and takes a token if there is one |
| TokenBucket.Limiter.Take | src/upstream/upstream.go:41-56 | Take returns after the first turn that finds a token |
| TokenBucket.AvailableGrows | src/upstream/upstream.go:41-56 | Tokens grow no faster than the rate and stay within the capacity |
| TokenBucket.TurnTakesIff | src/upstream/upstream.go:41-56 | A turn takes a token if and only if what is left and what the rate allows since make one, and loses nothing otherwise |
| TokenBucket.TakeReturns | src/upstream/upstream.go:41-56 | A call returns once the clock has advanced by the time of one token |
| TokenBucket.NewIsFull | src/upstream/upstream.go:32-39 | As many calls as the rate return from a new bucket at once |
| TokenBucket.RateIsBounded | src/upstream/upstream.go:25-56 | At most capacity + rate * (t - s) calls return in any interval, with tokens always between 0 and capacity |

## Left out

- Kafka and Sarama clients, sockets, TLS handshakes, signal handling, configuration parsing and statistics: plumbing around the modelled state.
- The transport loop that sends packets one by one with retries, and the batch queue of `src/kafka/putkafka.go`.
- Message lengths above 2^31 - 2^16 bytes, where the int32 positions of `FormatMessage` would wrap.
- Sequence numbers above 2^64 and the wrap-around of int64 in gap and offset arithmetic: theorems that depend on a width ask for values that fit it.
- Repeated random identities: a segment or window is named by the draw that produced its identity.
- Log output that cannot be encoded or written: the record is lost and its number is used.
- The verifier passes over records that were written while hashing was off and does not compare run identities; tests/env/verify_log_chain.py, which reads one segment, rejects both.
- `SetSigningCertificate` and `ClearSigningCertificate`: the trust chain is about rotation only.
- The fallback of an empty service name and the trimming of white space in `SetServiceName`: the name in the model is the one that results.
- Templated log records: the parameters shown in a summary are not modelled, only its key and count.
- TcpClient.TCPAdapter.Dial: does not model that the error of a failed dial is stored in a separate critical section, because nothing depends on the time between.
- Pinned TLS, its manager and rotation frames: only the test that recognises such a frame is modelled, and that a connection without a pin manager ends at one.
- The filter types "manual" and "time-range" and the partition range filter of `src/resend/resend.go`: one comparison each.
- Recovery.AllIsExact: offsets above 2^53 are excluded, because they travel as float64.
- Lost-event directory, memory hysteresis, input filter expressions and the unused cache operations `AddEntry` and `AddEntryValue`.

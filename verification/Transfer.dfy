/** One record across the diode: what the downstream side writes is what the upstream side was to carry. */
module Transfer {
  import opened Bytes
  import opened Options
  import opened Text
  import opened Formatter
  import opened MessageTypes
  import opened Parser
  import opened Splitting
  import opened Network
  import opened Completion
  import opened Delivery
  import Framing
  import Routing
  import U = Upstream
  import D = Downstream

  // What a record is to arrive as, and what is sent for it

  /** Nothing if the input filter denied the record, a guard if its value is too large, else its value. */
  function Original(u: U.Config, id: Bytes, value: Bytes, denied: bool): Option<Bytes> {
    if denied then Some([])
    else if 0 < u.maxEventBytes < |value| then u.guard(U.TooLarge, id, value)
    else Some(value)
  }

  /** Payloads above the configured length are compressed, unless the compressor fails. */
  predicate Zips(u: U.Config, plain: Bytes) {
    0 < u.compressWhenLengthExceeds < |plain| && u.gzip(plain).Some?
  }

  function Packed(u: U.Config, plain: Bytes): Bytes {
    if Zips(u, plain) then u.gzip(plain).value else plain
  }

  predicate Locked(u: U.Config, plain: Bytes) {
    u.encryption && u.encrypt(Packed(u, plain)) == None
  }

  /** The payload a record is to arrive with: the original, or a guard if that cannot be encrypted. */
  function PayloadFor(u: U.Config, id: Bytes, value: Bytes, denied: bool): Option<Bytes> {
    match Original(u, id, value, denied)
    case None => None
    case Some(p) => if Locked(u, p) then u.guard(U.EncryptionFailed, id, Packed(u, p)) else Some(p)
  }

  /** What is on the wire for it, and whether that is compressed; None if it is not sent. */
  function WireFor(u: U.Config, id: Bytes, value: Bytes, denied: bool): Option<(bool, Bytes)> {
    match (Original(u, id, value, denied), PayloadFor(u, id, value, denied))
    case (Some(p), Some(payload)) =>
      if Locked(u, p) then if u.encrypt(payload) == None then None else Some((false, u.encrypt(payload).value))
      else Some((Zips(u, p), if u.encryption then u.encrypt(Packed(u, p)).value else Packed(u, p)))
    case _ => None
  }

  lemma SizedIsOriginal(u: U.Config, id: Bytes, value: Bytes, denied: bool)
    ensures U.Sized(u, id, value, denied) == Original(u, id, value, denied)
  {
  }

  lemma CompressPacks(u: U.Config, plain: Bytes)
    ensures U.Compress(u, plain) == (Packed(u, plain), Zips(u, plain))
  {
  }

  /** The handler puts on the wire what is to be there, with the type that says how it is packed. */
  lemma EncodedIsWire(u: U.Config, id: Bytes, value: Bytes, denied: bool)
    requires Original(u, id, value, denied).Some?
    ensures var h, wire := U.Encoded(u, id, Original(u, id, value, denied).value), WireFor(u, id, value, denied);
            (h.Sends? <==> wire.Some?)
            && (h.Sends? ==> h == U.Sends(id, TypeFor(u.encryption, wire.value.0), wire.value.1))
  {
    CompressPacks(u, Original(u, id, value, denied).value);
  }

  /** What the input filter denies does not leave: the record is handled the same for any value. */
  lemma DeniedIsCleared(u: U.Config, from: int, id: Bytes, t: int, a: Bytes, b: Bytes)
    ensures U.HandleRecord(u, from, id, t, a, true) == U.HandleRecord(u, from, id, t, b, true)
  {
    if U.TransformId(u, id).Some? {
      SizedIsOriginal(u, U.TransformId(u, id).value, a, true);
      SizedIsOriginal(u, U.TransformId(u, id).value, b, true);
    }
  }

  /** Decryption undoes the encryption of this payload. */
  predicate Decrypts(u: U.Config, d: D.Config, plain: Bytes) {
    u.encryption && u.encrypt(plain).Some? ==> d.decrypt(u.encrypt(plain).value) == Some(plain)
  }

  /** If the payload is compressed, decompression undoes it, and its size limit admits the payload. */
  predicate Unzips(u: U.Config, d: D.Config, plain: Bytes) {
    Zips(u, plain) ==>
      Packed(u, plain) != [] && d.gunzip(Packed(u, plain)) == Some(plain)
      && (d.maximumDecompressSize < 0 || |plain| <= d.maximumDecompressSize)
  }

  /** The codecs undo each other on what is sent for the record: the packed payload, or the guard in its place. */
  predicate CodecsUndone(u: U.Config, d: D.Config, id: Bytes, value: Bytes, denied: bool) {
    match (Original(u, id, value, denied), PayloadFor(u, id, value, denied))
    case (Some(p), Some(payload)) =>
      if Locked(u, p) then Decrypts(u, d, payload) else Unzips(u, d, p) && Decrypts(u, d, Packed(u, p))
    case _ => true
  }

  /** All four combinations of encryption and compression, and the guard that replaces what cannot be encrypted. */
  lemma WireIsRecovered(u: U.Config, d: D.Config, id: Bytes, value: Bytes, denied: bool)
    requires WireFor(u, id, value, denied).Some? && CodecsUndone(u, d, id, value, denied)
    ensures var (gzip, wire) := WireFor(u, id, value, denied).value;
            Recovered(d, U.Sends(id, TypeFor(u.encryption, gzip), wire), PayloadFor(u, id, value, denied))
  {
    KindOfTypeFor(u.encryption, WireFor(u, id, value, denied).value.0);
  }

  predicate Recovered(d: D.Config, sent: U.Handled, carried: Option<Bytes>)
    requires sent.Sends?
  {
    && carried.Some?
    && (KindOf(sent.messageType).Cleartext? || KindOf(sent.messageType).Encrypted?)
    && D.Recover(d, KindOf(sent.messageType), sent.wire) == carried
  }

  /** What is sent for a record is recovered as the payload the record is to arrive with. */
  lemma RecordIsRecovered(u: U.Config, d: D.Config, from: int, id: Bytes, t: int, value: Bytes, denied: bool)
    requires U.HandleRecord(u, from, id, t, value, denied).Sends?
    requires CodecsUndone(u, d, U.HandleRecord(u, from, id, t, value, denied).id, value, denied)
    ensures var sent := U.HandleRecord(u, from, id, t, value, denied);
            Recovered(d, sent, PayloadFor(u, sent.id, value, denied))
  {
    var key := U.TransformId(u, id).value;
    SizedIsOriginal(u, key, value, denied);
    EncodedIsWire(u, key, value, denied);
    WireIsRecovered(u, d, key, value, denied);
  }

  // The receiving side, fed with packets in any order among other traffic

  datatype Input = Wire(packet: Bytes, now: int) | CleanUp(now: int)

  function Receive(d: D.Config, s: D.State, input: Input, md5: Checksum): D.State {
    match input
    case Wire(packet, now) => D.HandlePacket(d, s, packet, now, md5).0
    case CleanUp(now) => s.(cache := Clean(s.cache, now))
  }

  function ReceiveAll(d: D.Config, s: D.State, inputs: seq<Input>, md5: Checksum): D.State {
    if inputs == [] then s
    else Receive(d, ReceiveAll(d, s, inputs[..|inputs| - 1], md5), inputs[|inputs| - 1], md5)
  }

  /** What an input is to the message cache. */
  function ArrivalOf(input: Input, maxNrMessages: uint16, md5: Checksum): Arrival {
    match input
    case CleanUp(now) => Tick(now)
    case Wire(packet, now) =>
      var part := Decode(packet, maxNrMessages, md5);
      if D.IsRotationFrame(packet) || part == None then Noise else Packet(part.value, now)
  }

  function Arrivals(inputs: seq<Input>, maxNrMessages: uint16, md5: Checksum): (a: seq<Arrival>)
    ensures |a| == |inputs|
  {
    if inputs == [] then []
    else Arrivals(inputs[..|inputs| - 1], maxNrMessages, md5) + [ArrivalOf(inputs[|inputs| - 1], maxNrMessages, md5)]
  }

  lemma ReceiveHandles(d: D.Config, s: D.State, input: Input, md5: Checksum)
    ensures Receive(d, s, input, md5).cache == Handle(s.cache, ArrivalOf(input, s.cache.maxNrMessages, md5)).0
  {
  }

  /** handleUdpMessage drives the cache exactly as the arrivals do. */
  lemma {:induction false} ReceiveAllHandles(d: D.Config, s: D.State, inputs: seq<Input>, md5: Checksum)
    ensures var n := s.cache.maxNrMessages;
            ReceiveAll(d, s, inputs, md5).cache == After(s.cache, Arrivals(inputs, n, md5))
            && ReceiveAll(d, s, inputs, md5).cache.maxNrMessages == n
  {
    if inputs != [] {
      var n, before, input := s.cache.maxNrMessages, inputs[..|inputs| - 1], inputs[|inputs| - 1];
      ReceiveAllHandles(d, s, before, md5);
      ReceiveHandles(d, ReceiveAll(d, s, before, md5), input, md5);
      assert Arrivals(inputs, n, md5)[..|before|] == Arrivals(before, n, md5);
      HandleKeepsLimits(After(s.cache, Arrivals(before, n, md5)), ArrivalOf(input, n, md5));
    }
  }

  lemma RotationIffPrefix(p: Part, md5: Checksum)
    requires |p.id| < 0x1_0000
    ensures D.IsRotationFrame(Encode(p, md5)) <==> Framing.NamesRotation(p.id)
  {
    HeaderFields(p, md5);
    VariableFields(p, md5);
  }

  /** The downstream side hands every completed message to its switch. */
  lemma PacketIsDispatched(d: D.Config, s: D.State, x: Sent, i: nat, now: int, md5: Checksum)
    requires Shaped(x) && i < |x.parts| && !Framing.NamesRotation(x.m.id)
    ensures ArrivalOf(Wire(Encode(x.parts[i], md5), now), s.cache.maxNrMessages, md5)
            == if x.parts[i].count > s.cache.maxNrMessages then Noise else Packet(x.parts[i], now)
    ensures var effect := D.HandlePacket(d, s, Encode(x.parts[i], md5), now, md5).1;
            match Handle(s.cache, Packet(x.parts[i], now)).1
            case Failed => effect == D.ParseFailed
            case Pending => effect == D.Nothing
            case Delivered(t, id, payload) => effect == D.Dispatch(d, t, id, payload, now, s.lastKeyExchange)
  {
    assert x.parts[i].id == x.m.id;
    HandleIsParseMessage(s.cache, x, i, now, md5);
    PacketDecodes(x, i, s.cache.maxNrMessages, md5);
    RotationIffPrefix(x.parts[i], md5);
    assert D.Dispatch(d, TYPE_MULTIPART, [], [], now, s.lastKeyExchange) == D.Nothing;
  }

  /** A transport message that can reach the cache downstream and complete there. */
  predicate Carriable(m: Message, maxNrMessages: uint16) {
    && Sendable(m) && Fits(m) && CountsExactly(m.id, |m.payload|, m.mtu)
    && Declared(m.id, |m.payload|, m.mtu) <= maxNrMessages && Declared(m.id, |m.payload|, m.mtu) < 0xFFFF
    && !Framing.NamesRotation(m.id)
  }

  lemma CarriableIsCollectable(m: Message, c: CacheState)
    requires Carriable(m, c.maxNrMessages)
    ensures var x := SendOf(m);
            Registered(x) && Shaped(x) && x.m == m && Completes(x) && x.parts[0].count <= c.maxNrMessages
            && (Multipart(x) ==> Collectable(x, c))
  {
    SendOfShaped(m);
    FittingIsCountedClosely(m);
  }

  /** The last missing part of the message has arrived. */
  predicate Arrived(x: Sent, arrivals: seq<Arrival>) {
    Whole(x, Got(arrivals, x))
  }

  /** The inputs reach a downstream process that has not seen the message, and spare it. */
  predicate Spared(s: D.State, m: Message, arrivals: seq<Arrival>)
    requires Sendable(m)
  {
    m.id !in s.cache.entries && AllUndisturbed(s.cache, arrivals, SendOf(m))
  }

  /**
   * Any packet of a multi-part message, after any other input: the switch sees the message when its last
   * missing part arrives, and nothing before.
   */
  lemma PacketOfMany(d: D.Config, s: D.State, m: Message, inputs: seq<Input>, i: nat, now: int, md5: Checksum)
    requires Carriable(m, s.cache.maxNrMessages) && Multipart(SendOf(m)) && i < |SendOf(m).parts|
    requires var arrivals := Arrivals(inputs, s.cache.maxNrMessages, md5);
             Spared(s, m, arrivals + [Packet(SendOf(m).parts[i], now)]) && !Arrived(SendOf(m), arrivals)
    ensures var x, before := SendOf(m), ReceiveAll(d, s, inputs, md5);
            var arrivals := Arrivals(inputs, s.cache.maxNrMessages, md5) + [Packet(x.parts[i], now)];
            D.HandlePacket(d, before, Encode(x.parts[i], md5), now, md5).1
            == if Arrived(x, arrivals) then D.Dispatch(d, m.messageType, m.id, m.payload, now, before.lastKeyExchange)
               else D.Nothing
  {
    var x, before := SendOf(m), ReceiveAll(d, s, inputs, md5);
    CarriableIsCollectable(m, s.cache);
    ReceiveAllHandles(d, s, inputs, md5);
    PartOf(x, i);
    CompletesAtLastMissingPart(s.cache, x, Arrivals(inputs, s.cache.maxNrMessages, md5), Packet(x.parts[i], now));
    PacketIsDispatched(d, before, x, i, now, md5);
  }

  /** The only packet of a message that fits one. */
  lemma PacketOfOne(d: D.Config, s: D.State, m: Message, inputs: seq<Input>, now: int, md5: Checksum)
    requires Carriable(m, s.cache.maxNrMessages) && !Multipart(SendOf(m))
    ensures var x, before := SendOf(m), ReceiveAll(d, s, inputs, md5);
            |x.parts| == 1 && D.HandlePacket(d, before, Encode(x.parts[0], md5), now, md5).1
                              == D.Dispatch(d, m.messageType, m.id, m.payload, now, before.lastKeyExchange)
  {
    var x, before := SendOf(m), ReceiveAll(d, s, inputs, md5);
    CarriableIsCollectable(m, s.cache);
    ReceiveAllHandles(d, s, inputs, md5);
    PartOf(x, 0);
    SinglePart(x);
    PacketIsDispatched(d, before, x, 0, now, md5);
  }

  /** Packet i of m arrives after the inputs, at a process that has not completed m before. */
  predicate Awaited(s: D.State, m: Message, inputs: seq<Input>, i: nat, now: int, md5: Checksum) {
    && Carriable(m, s.cache.maxNrMessages) && i < |SendOf(m).parts|
    && var arrivals := Arrivals(inputs, s.cache.maxNrMessages, md5);
       (Multipart(SendOf(m)) ==>
          Spared(s, m, arrivals + [Packet(SendOf(m).parts[i], now)]) && !Arrived(SendOf(m), arrivals))
  }

  /** That packet completes the message, or it is the only one. */
  predicate Completing(s: D.State, m: Message, inputs: seq<Input>, i: nat, now: int, md5: Checksum)
    requires Awaited(s, m, inputs, i, now, md5)
  {
    !Multipart(SendOf(m))
    || Arrived(SendOf(m), Arrivals(inputs, s.cache.maxNrMessages, md5) + [Packet(SendOf(m).parts[i], now)])
  }

  /** What the packet makes the downstream side do. */
  function EffectOf(d: D.Config, s: D.State, m: Message, inputs: seq<Input>, i: nat, now: int, md5: Checksum): D.Effect
    requires Awaited(s, m, inputs, i, now, md5)
  {
    D.HandlePacket(d, ReceiveAll(d, s, inputs, md5), Encode(SendOf(m).parts[i], md5), now, md5).1
  }

  lemma PacketOfMessage(d: D.Config, s: D.State, m: Message, inputs: seq<Input>, i: nat, now: int, md5: Checksum)
    requires Awaited(s, m, inputs, i, now, md5)
    ensures EffectOf(d, s, m, inputs, i, now, md5)
            == if Completing(s, m, inputs, i, now, md5)
               then D.Dispatch(d, m.messageType, m.id, m.payload, now, ReceiveAll(d, s, inputs, md5).lastKeyExchange)
               else D.Nothing
  {
    if Multipart(SendOf(m)) {
      PacketOfMany(d, s, m, inputs, i, now, md5);
    } else {
      PacketOfOne(d, s, m, inputs, now, md5);
    }
  }

  /** A Kafka record, with the verdict of the input filter. */
  datatype KafkaRecord = KafkaRecord(topic: Bytes, partition: nat, offset: nat, time: int, value: Bytes, denied: bool)

  function Handled(u: U.Config, from: int, r: KafkaRecord): U.Handled {
    U.HandleRecord(u, from, Routing.RecordId(r.topic, r.partition, r.offset), r.time, r.value, r.denied)
  }

  /** The partition is one that Kafka has. */
  predicate FromKafka(r: KafkaRecord) {
    r.partition <= Routing.MAX_INT32
  }

  /** The topic in the key of a record: translated, unless it holds an underscore. */
  function KeyTopic(u: U.Config, r: KafkaRecord): Bytes {
    if UNDERSCORE !in r.topic && r.topic in u.translations then u.translations[r.topic] else r.topic
  }

  /** The key a record is to be written under: the partition is shifted, unless the topic holds an underscore. */
  function KeyFor(u: U.Config, r: KafkaRecord): Bytes {
    Routing.RecordId(KeyTopic(u, r), if UNDERSCORE in r.topic then r.partition else r.partition + u.partitionStartValue, r.offset)
  }

  /** Where a record is to be written: both translations and the shift, or the fallback for topics with underscores. */
  function DestinationFor(u: U.Config, d: D.Config, r: KafkaRecord): (Bytes, int) {
    var (topic, partition) :=
      if UNDERSCORE in KeyTopic(u, r) then (d.topic, 0) else (KeyTopic(u, r), r.partition + u.partitionStartValue);
    (if topic in d.translations then d.translations[topic] else topic, partition)
  }

  /** The write a record is to end in. */
  function WriteFor(u: U.Config, d: D.Config, r: KafkaRecord): D.Effect
    requires PayloadFor(u, KeyFor(u, r), r.value, r.denied).Some?
  {
    var (topic, partition) := DestinationFor(u, d, r);
    D.Written(KeyFor(u, r), topic, partition, PayloadFor(u, KeyFor(u, r), r.value, r.denied).value)
  }

  /** A record that is sent: its key, and its partition in int32 where it is shifted. */
  lemma HandledHasKey(u: U.Config, from: int, r: KafkaRecord)
    requires FromKafka(r) && Handled(u, from, r).Sends?
    ensures Handled(u, from, r).id == KeyFor(u, r)
    ensures UNDERSCORE !in r.topic ==> 0 <= r.partition + u.partitionStartValue <= Routing.MAX_INT32
  {
    Routing.KeyOfRecord(u, r.topic, r.partition, r.offset);
  }

  /** The deliver filter takes the record, or does not apply to it. */
  predicate Accepted(u: U.Config, r: KafkaRecord) {
    UNDERSCORE !in r.topic && u.deliver.Some? ==> u.deliver.value(r.offset)
  }

  /** The shifted partition is not in int32. */
  predicate Outside(u: U.Config, r: KafkaRecord) {
    UNDERSCORE !in r.topic && !(0 <= r.partition + u.partitionStartValue <= Routing.MAX_INT32)
  }

  /** The checks of the handler, and what is left to encode. */
  lemma HandledIs(u: U.Config, from: int, r: KafkaRecord)
    requires FromKafka(r) && r.offset <= MAX_INT64
    ensures Handled(u, from, r)
            == if r.time < from || !Accepted(u, r) then U.Dropped
               else if Outside(u, r) then U.Exits
               else
                 match Original(u, KeyFor(u, r), r.value, r.denied)
                 case None => U.Dropped
                 case Some(p) => U.Encoded(u, KeyFor(u, r), p)
  {
    Routing.RecordIdSplits(r.topic, r.partition, r.offset);
    AtoiItoa(r.offset);
    Routing.KeyOfRecord(u, r.topic, r.partition, r.offset);
    SizedIsOriginal(u, KeyFor(u, r), r.value, r.denied);
  }

  /**
   * A record is sent exactly if it is not too old, the deliver filter takes its offset, its partition stays within
   * int32, and there is something to put on the wire; then that is sent, under its key and with the type that says
   * how it is packed.
   */
  lemma SentIff(u: U.Config, from: int, r: KafkaRecord)
    requires FromKafka(r) && r.offset <= MAX_INT64
    ensures var h, wire := Handled(u, from, r), WireFor(u, KeyFor(u, r), r.value, r.denied);
            (h.Sends? <==> from <= r.time && Accepted(u, r) && !Outside(u, r) && wire.Some?)
            && (h.Sends? ==>
                  h.id == KeyFor(u, r) && h.wire == wire.value.1
                  && KindOf(h.messageType) == if u.encryption then Encrypted(wire.value.0) else Cleartext(wire.value.0))
  {
    HandledIs(u, from, r);
    if Original(u, KeyFor(u, r), r.value, r.denied).Some? { EncodedIsWire(u, KeyFor(u, r), r.value, r.denied); }
    if WireFor(u, KeyFor(u, r), r.value, r.denied).Some? {
      KindOfTypeFor(u.encryption, WireFor(u, KeyFor(u, r), r.value, r.denied).value.0);
    }
  }

  /** It holds nothing that can be sent, and there is no guard to send instead. */
  predicate Unsendable(u: U.Config, r: KafkaRecord) {
    PayloadFor(u, KeyFor(u, r), r.value, r.denied) == None
  }

  /**
   * What becomes of a record that is not sent: one whose partition leaves int32 ends the process, one whose guard cannot
   * be encrypted either is tried again, and all others are dropped.
   */
  lemma NotSent(u: U.Config, from: int, r: KafkaRecord)
    requires FromKafka(r) && r.offset <= MAX_INT64 && !Handled(u, from, r).Sends?
    ensures Handled(u, from, r) == if r.time < from || !Accepted(u, r) then U.Dropped
                                   else if Outside(u, r) then U.Exits
                                   else if Unsendable(u, r) then U.Dropped
                                   else U.Retried
  {
    HandledIs(u, from, r);
    if Original(u, KeyFor(u, r), r.value, r.denied).Some? {
      CompressPacks(u, Original(u, KeyFor(u, r), r.value, r.denied).value);
    }
  }

  lemma DispatchWrites(u: U.Config, d: D.Config, from: int, r: KafkaRecord, now: int, last: int)
    requires FromKafka(r) && Handled(u, from, r).Sends? && CodecsUndone(u, d, KeyFor(u, r), r.value, r.denied)
    ensures PayloadFor(u, KeyFor(u, r), r.value, r.denied).Some?
    ensures var sent := Handled(u, from, r);
            D.Dispatch(d, sent.messageType, sent.id, sent.wire, now, last) == WriteFor(u, d, r)
  {
    HandledHasKey(u, from, r);
    RecordIsRecovered(u, d, from, Routing.RecordId(r.topic, r.partition, r.offset), r.time, r.value, r.denied);
    KeyIsRouted(u, d, from, r);
  }

  lemma KeyIsRouted(u: U.Config, d: D.Config, from: int, r: KafkaRecord)
    requires FromKafka(r) && Handled(u, from, r).Sends?
    ensures D.Destination(d, KeyFor(u, r)) == DestinationFor(u, d, r) && 0 <= DestinationFor(u, d, r).1 <= Routing.MAX_INT32
  {
    HandledHasKey(u, from, r);
    Routing.RecordIsRouted(u, d, r.topic, r.partition, r.offset);
    Routing.KeyOfRecord(u, r.topic, r.partition, r.offset);
  }

  /**
   * A record across the diode. Its packets may arrive in any order, repeated, and among any other input. The
   * packet that completes the message writes one record: under the key of the record, to the topic and partition
   * for it, with the payload it was to carry. No packet before that writes anything.
   */
  lemma RecordIsTransferred(u: U.Config, d: D.Config, s: D.State, from: int, r: KafkaRecord, m: Message,
                            inputs: seq<Input>, i: nat, now: int, md5: Checksum)
    requires FromKafka(r) && CodecsUndone(u, d, KeyFor(u, r), r.value, r.denied) && Handled(u, from, r).Sends?
    requires var sent := Handled(u, from, r);
             m == Message(sent.messageType, sent.id, sent.wire, u.payloadSize)
    requires Awaited(s, m, inputs, i, now, md5)
    ensures PayloadFor(u, KeyFor(u, r), r.value, r.denied).Some?
    ensures EffectOf(d, s, m, inputs, i, now, md5)
            == if Completing(s, m, inputs, i, now, md5) then WriteFor(u, d, r) else D.Nothing
  {
    DispatchWrites(u, d, from, r, now, ReceiveAll(d, s, inputs, md5).lastKeyExchange);
    PacketOfMessage(d, s, m, inputs, i, now, md5);
  }
}

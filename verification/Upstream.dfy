/** src/upstream/upstream.go: what is sent over the diode for one Kafka record. */
module Upstream {
  import opened Bytes
  import opened Options
  import opened Text
  import opened MessageTypes

  /**
   * The settings the handler reads, with the codecs and the lost-event guard as functions of their input.
   * `None` is the error result of a codec, or a guard that is disabled or cannot be rendered.
   */
  datatype Config = Config(
    translations: map<Bytes, Bytes>,
    partitionStartValue: int,
    encryption: bool,
    encrypt: Bytes -> Option<Bytes>,
    compressWhenLengthExceeds: int,
    gzip: Bytes -> Option<Bytes>,
    maxEventBytes: int,
    guard: (Reason, Bytes, Bytes) -> Option<Bytes>,
    deliver: Option<int -> bool>,
    payloadSize: uint16)

  datatype Reason = TooLarge | EncryptionFailed

  /** The outcome for one record: dropped, process exit, to be retried, or a message handed to the transport. */
  datatype Handled = Dropped | Exits | Retried | Sends(id: Bytes, messageType: byte, wire: Bytes)

  function TranslateTopic(translations: map<Bytes, Bytes>, topic: Bytes): Bytes {
    if topic in translations then translations[topic] else topic
  }

  /** transformMessageID; None when the partition leaves int32 and the process exits. */
  function TransformId(cfg: Config, id: Bytes): Option<Bytes> {
    var parts := Split(id, UNDERSCORE);
    if |parts| != 3 then Some(id)
    else
      var topic := TranslateTopic(cfg.translations, parts[0]);
      match Atoi(parts[1])
      case Value(n) =>
        var partition := n + cfg.partitionStartValue;
        if partition < 0 || partition > 0x7FFF_FFFF then None
        else Some(Join([topic, Itoa(partition), parts[2]], UNDERSCORE))
      case _ => Some(Join([topic, parts[1], parts[2]], UNDERSCORE))
  }

  /** The deliver filter passes ids it cannot read. */
  predicate PassesFilter(cfg: Config, id: Bytes) {
    var parts := Split(id, UNDERSCORE);
    cfg.deliver.Some? && |parts| == 3 && Atoi(parts[2]).Value? ==> cfg.deliver.value(Atoi(parts[2]).n)
  }

  /** Compression above the configured length; a compressor error sends the payload as it is. */
  function Compress(cfg: Config, payload: Bytes): (Bytes, bool) {
    if cfg.compressWhenLengthExceeds > 0 && |payload| > cfg.compressWhenLengthExceeds && cfg.gzip(payload).Some?
    then (cfg.gzip(payload).value, true) else (payload, false)
  }

  /** encodeForTransport, up to FormatMessage. */
  function EncodeForTransport(cfg: Config, payload: Bytes, gzip: bool): Option<(byte, Bytes)> {
    if cfg.encryption then
      match cfg.encrypt(payload)
      case None => None
      case Some(c) => Some((TypeFor(true, gzip), c))
    else Some((TypeFor(false, gzip), payload))
  }

  /** The payload to transport: cleared if denied, a guard if it is too large; None if there is no guard. */
  function Sized(cfg: Config, id: Bytes, received: Bytes, denied: bool): Option<Bytes> {
    var r := if denied then [] else received;
    if 0 < cfg.maxEventBytes < |r| then cfg.guard(TooLarge, id, r) else Some(r)
  }

  /** A record on the wire: the payload, packed and encoded, or the guard sent in its place. */
  function Encoded(cfg: Config, id: Bytes, sized: Bytes): Handled {
    var (packed, gzip) := Compress(cfg, sized);
    match EncodeForTransport(cfg, packed, gzip)
    case Some((t, wire)) => Sends(id, t, wire)
    case None =>
      match cfg.guard(EncryptionFailed, id, packed)
      case None => Dropped
      case Some(guard) =>
        match EncodeForTransport(cfg, guard, false)
        case None => Retried
        case Some((t, wire)) => Sends(id, t, wire)
  }

  function HandleRecord(cfg: Config, timeFrom: int, id: Bytes, t: int, received: Bytes, denied: bool): Handled {
    if t < timeFrom || !PassesFilter(cfg, id) then Dropped
    else
      match TransformId(cfg, id)
      case None => Exits
      case Some(newId) =>
        match Sized(cfg, newId, received, denied)
        case None => Dropped
        case Some(p) => Encoded(cfg, newId, p)
  }

  /** kafkaHandlerWithContext up to FormatMessage; `denied` is the verdict of the input filter. */
  method KafkaHandler(cfg: Config, timeFrom: int, id: Bytes, t: int, received: Bytes, denied: bool)
    returns (r: Handled)
    ensures r == HandleRecord(cfg, timeFrom, id, t, received, denied)
  {
    if t < timeFrom { return Dropped; }
    var payload := received;
    if denied { payload := []; }
    if !PassesFilter(cfg, id) { return Dropped; }
    var newId := TransformId(cfg, id);
    if newId == None { return Exits; }
    if cfg.maxEventBytes > 0 && |payload| > cfg.maxEventBytes {
      var guard := cfg.guard(TooLarge, newId.value, payload);
      if guard == None { return Dropped; }
      payload := guard.value;
    }
    var isCompressed := false;
    if cfg.compressWhenLengthExceeds > 0 && |payload| > cfg.compressWhenLengthExceeds {
      var compressed := cfg.gzip(payload);
      if compressed.Some? {
        isCompressed := true;
        payload := compressed.value;
      }
    }
    var encoded := EncodeForTransport(cfg, payload, isCompressed);
    if encoded == None {
      var guard := cfg.guard(EncryptionFailed, newId.value, payload);
      if guard == None { return Dropped; }
      encoded := EncodeForTransport(cfg, guard.value, false);
      if encoded == None { return Retried; }
    }
    return Sends(newId.value, encoded.value.0, encoded.value.1);
  }
}

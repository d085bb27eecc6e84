/** src/downstream/downstream.go: from a packet to a Kafka write. */
module Downstream {
  import opened Bytes
  import opened Options
  import opened Text
  import opened Formatter
  import opened MessageTypes
  import opened Parser
  import Framing
  import Upstream

  datatype Config = Config(
    topic: Bytes,
    translations: map<Bytes, Bytes>,
    decrypt: Bytes -> Option<Bytes>,
    gunzip: Bytes -> Option<Bytes>,
    maximumDecompressSize: int,
    keyExchangeMinInterval: int)

  /** What handling one packet does outside the cache. */
  datatype Effect =
    | Nothing
    | RotationRejected
    | ParseFailed
    | Written(key: Bytes, topic: Bytes, partition: int, payload: Bytes)
    | ErrorSent(id: Bytes)             // sendMessage(TYPE_ERROR, id, ...) with the text of a decoding error
    | ErrorForwarded(id: Bytes, payload: Bytes)
    | MessageForwarded(payload: Bytes) // sendMessage(TYPE_MESSAGE, "", ...)
    | KeyRead(payload: Bytes)
    | KeyRateLimited
    | Exits

  /** pinnedtls.IsRotationFrame */
  predicate IsRotationFrame(frame: Bytes) {
    |frame| >= 7 && |frame| >= 7 + Get16(frame, 5) && Framing.PIN_TLS <= frame[7..7 + Get16(frame, 5)]
  }

  /** ParseMessageId and its fallback: topic and partition of an id. */
  function Destination(cfg: Config, id: Bytes): (Bytes, int) {
    var parts := Split(id, UNDERSCORE);
    if |parts| == 3 then (Upstream.TranslateTopic(cfg.translations, parts[0]), AtoiUnchecked(parts[1]))
    else (Upstream.TranslateTopic(cfg.translations, cfg.topic), 0)
  }

  /** protocol.DecompressGzip */
  function Decompress(cfg: Config, payload: Bytes): Option<Bytes> {
    if payload == [] then None
    else
      match cfg.gunzip(payload)
      case None => None
      case Some(d) => if 0 <= cfg.maximumDecompressSize < |d| then None else Some(d)
  }

  /** The payload behind encryption and compression. */
  function Recover(cfg: Config, kind: Kind, payload: Bytes): Option<Bytes>
    requires kind.Cleartext? || kind.Encrypted?
  {
    match if kind.Encrypted? then cfg.decrypt(payload) else Some(payload)
    case None => None
    case Some(p) => if kind.gzip then Decompress(cfg, p) else Some(p)
  }

  /** The switch of handleUdpMessage. */
  function Dispatch(cfg: Config, t: byte, id: Bytes, payload: Bytes, now: int, lastKeyExchange: int): Effect {
    var kind := KindOf(t);
    var (topic, partition) := Destination(cfg, id);
    match kind
    case Cleartext(_) | Encrypted(_) =>
      (match Recover(cfg, kind, payload)
       case None => ErrorSent(id)
       case Some(p) => if 0 <= partition <= 0x7FFF_FFFF then Written(id, topic, partition, p) else Exits)
    case KeyExchange =>
      if cfg.keyExchangeMinInterval > 0 && now - lastKeyExchange < cfg.keyExchangeMinInterval
      then KeyRateLimited else KeyRead(payload)
    case ErrorReport => ErrorForwarded(id, payload)
    case Fragment => Nothing
    case Other => MessageForwarded(payload)
  }

  datatype State = State(cache: CacheState, lastKeyExchange: int, running: bool)

  function Dispatched(cfg: Config, s: State, t: byte, id: Bytes, payload: Bytes, now: int): (State, Effect) {
    var effect := Dispatch(cfg, t, id, payload, now, s.lastKeyExchange);
    (s.(lastKeyExchange := if effect.KeyRead? then now else s.lastKeyExchange, running := true), effect)
  }

  /** handleUdpMessage: an incomplete message comes back as TYPE_MULTIPART with an empty id. */
  function HandlePacket(cfg: Config, s: State, packet: Bytes, now: int, md5: Checksum): (State, Effect) {
    if IsRotationFrame(packet) then (s, RotationRejected)
    else
      var (cache, out) := Step(s.cache, packet, now, md5);
      match out
      case Failed => (s.(cache := cache, running := false), ParseFailed)
      case Pending => Dispatched(cfg, s.(cache := cache), TYPE_MULTIPART, [], [], now)
      case Delivered(t, id, payload) => Dispatched(cfg, s.(cache := cache), t, id, payload, now)
  }

  class Receiver {
    const cfg: Config
    const cache: MessageCache
    var lastKeyExchangeNano: int
    var running: bool

    function Abstract(): State
      reads this, cache
    {
      State(cache.State(), lastKeyExchangeNano, running)
    }

    constructor (cfg: Config)
      ensures this.cfg == cfg && fresh(cache)
      ensures Abstract() == State(CacheState(map[], 100_000, 4096), 0, true)
    {
      this.cfg := cfg;
      cache := new MessageCache();
      lastKeyExchangeNano := 0;
      running := true;
    }

    /** The cleartext and encrypted cases of the switch. */
    method Deliver(kind: Kind, id: Bytes, topic: Bytes, partition: int, wire: Bytes) returns (effect: Effect)
      requires kind.Cleartext? || kind.Encrypted?
      ensures effect == match Recover(cfg, kind, wire)
                        case None => ErrorSent(id)
                        case Some(p) => if 0 <= partition <= 0x7FFF_FFFF then Written(id, topic, partition, p) else Exits
    {
      var payload := wire;
      if kind.Encrypted? {
        var decrypted := cfg.decrypt(payload);
        if decrypted == None { return ErrorSent(id); }
        payload := decrypted.value;
      }
      if kind.gzip {
        var unzipped := Decompress(cfg, payload);
        if unzipped == None { return ErrorSent(id); }
        payload := unzipped.value;
      }
      if partition < 0 || partition > 0x7FFF_FFFF { return Exits; }
      return Written(id, topic, partition, payload);
    }

    /** What handleUdpMessage does with a parsed message. */
    method HandleMessage(messageType: byte, messageID: Bytes, payload: Bytes, now: int) returns (effect: Effect)
      modifies this`lastKeyExchangeNano
      ensures effect == Dispatch(cfg, messageType, messageID, payload, now, old(lastKeyExchangeNano))
      ensures lastKeyExchangeNano == if effect.KeyRead? then now else old(lastKeyExchangeNano)
    {
      var topic, partition := cfg.topic, 0;
      var parts := Split(messageID, UNDERSCORE);
      if |parts| == 3 {
        topic := parts[0];
        partition := AtoiUnchecked(parts[1]);
      }
      topic := Upstream.TranslateTopic(cfg.translations, topic);
      var kind := KindOf(messageType);
      if kind.Cleartext? || kind.Encrypted? {
        effect := Deliver(kind, messageID, topic, partition, payload);
      } else if kind.KeyExchange? {
        if cfg.keyExchangeMinInterval > 0 && now - lastKeyExchangeNano < cfg.keyExchangeMinInterval {
          return KeyRateLimited;
        }
        lastKeyExchangeNano := now;
        return KeyRead(payload);
      } else if kind.ErrorReport? {
        return ErrorForwarded(messageID, payload);
      } else if kind.Fragment? {
        return Nothing;
      } else {
        return MessageForwarded(payload);
      }
    }

    method HandleUdpMessage(packet: Bytes, now: int, md5: Checksum) returns (effect: Effect)
      modifies this, cache
      ensures (Abstract(), effect) == HandlePacket(cfg, old(Abstract()), packet, now, md5)
    {
      if IsRotationFrame(packet) { return RotationRejected; }
      var out := ParseMessage(packet, cache, now, md5);
      match out
      case Failed =>
        running := false;
        effect := ParseFailed;
      case Pending =>
        running := true;
        effect := HandleMessage(TYPE_MULTIPART, [], [], now);
      case Delivered(messageType, messageID, payload) =>
        running := true;
        effect := HandleMessage(messageType, messageID, payload, now);
    }
  }
}

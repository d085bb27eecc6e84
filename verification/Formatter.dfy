/** src/protocol/formatter.go: splitting one message into self-describing packets. */
module Formatter {
  import opened Bytes

  /** Header bytes of a packet with an empty id: type, number, count, id length, checksum, payload length. */
  const HEADER := 13

  /** Some function from a payload to four characters: the end of the hex digest. */
  type Checksum = Bytes -> (byte, byte, byte, byte)

  function CalculateChecksum(payload: Bytes, md5: Checksum): (c: Bytes)
    ensures |c| == 4
  {
    var d := md5(payload);
    [d.0, d.1, d.2, d.3]
  }

  /** What FormatMessage does: packets, or the process panics. */
  datatype Formatted = Packets(packets: seq<Bytes>) | Panic

  /** The room left for payload in one packet; not positive when the header does not fit the MTU. */
  function Chunk(mtu: nat, id: Bytes): int {
    mtu - HEADER - |id|
  }

  /** The fields of one packet. */
  datatype Part = Part(messageType: byte, number: uint16, count: uint16, id: Bytes, payload: Bytes)

  /** One packet, field by field. Lengths are reduced to uint16 as the conversions in the code do. */
  function Encode(p: Part, md5: Checksum): (b: Bytes)
    ensures |b| == HEADER + |p.id| + |p.payload|
  {
    [p.messageType] + Put16(p.number) + Put16(p.count) + Put16(Uint16(|p.id|)) + p.id
    + CalculateChecksum(p.payload, md5) + Put16(Uint16(|p.payload|)) + p.payload
  }

  function EncodeAll(parts: seq<Part>, md5: Checksum): (packets: seq<Bytes>) {
    if parts == [] then [] else EncodeAll(parts[..|parts| - 1], md5) + [Encode(parts[|parts| - 1], md5)]
  }

  /** The part count written into every header, in uint16 and int32 arithmetic; None is a division by zero. */
  datatype PartCount = Count(n: uint16) | DivisionByZero

  function NrMessages(mtu: nat, id: Bytes, length: nat): PartCount {
    var payloadLength := Uint16(mtu - HEADER - Uint16(|id|));
    if payloadLength == 0 then DivisionByZero else Count(Uint16(1 + length / payloadLength))
  }

  /** What is left of a message from `position` on. */
  function Suffix(message: Bytes, position: nat): Bytes {
    if position < |message| then message[position..] else []
  }

  /** The payload of the next packet. */
  function First(rest: Bytes, chunk: nat): Bytes {
    if |rest| <= chunk then rest else rest[..chunk]
  }

  /** The parts for `rest`, numbered from `number` in uint16 arithmetic. */
  function PartsFrom(p: Part, rest: Bytes, chunk: nat): seq<Part>
    requires chunk > 0
    decreases |rest|
  {
    if rest == [] then []
    else [p.(payload := First(rest, chunk))] + PartsFrom(p.(number := Uint16(p.number + 1)), Suffix(rest, chunk), chunk)
  }

  /** The parts FormatMessage must send, in order. */
  datatype Fragments = Parts(parts: seq<Part>) | NoRoom

  function SplitMessage(messageType: byte, id: Bytes, message: Bytes, mtu: nat): Fragments {
    if message == [] then Parts([Part(messageType, 1, 1, id, [])])
    else
      match NrMessages(mtu, id, |message|)
      case DivisionByZero => NoRoom
      case Count(n) =>
        if Chunk(mtu, id) <= 0 then NoRoom
        else Parts(PartsFrom(Part(messageType, 1, n, id, []), message, Chunk(mtu, id)))
  }

  /** The packets FormatMessage must produce. */
  function Format(messageType: byte, id: Bytes, message: Bytes, mtu: nat, md5: Checksum): Formatted {
    match SplitMessage(messageType, id, message, mtu)
    case NoRoom => Panic
    case Parts(parts) => Packets(EncodeAll(parts, md5))
  }

  /** A header that leaves exactly no room has already divided by zero in NrMessages. */
  lemma ZeroRoomPanics(mtu: nat, id: Bytes, length: nat)
    requires mtu < 0x1_0000 && NrMessages(mtu, id, length).Count?
    ensures Chunk(mtu, id) != 0
  {
  }

  lemma EncodeAllSnoc(parts: seq<Part>, last: Part, md5: Checksum)
    ensures EncodeAll(parts + [last], md5) == EncodeAll(parts, md5) + [Encode(last, md5)]
  {
    assert (parts + [last])[..|parts|] == parts;
  }

  /** The appends that build one packet. */
  method OnePacket(p: Part, md5: Checksum) returns (part: Bytes)
    ensures part == Encode(p, md5)
  {
    part := [];
    part := part + [p.messageType];
    part := part + Put16(p.number);
    part := part + Put16(p.count);
    part := part + Put16(Uint16(|p.id|));
    part := part + p.id;
    part := part + CalculateChecksum(p.payload, md5);
    part := part + Put16(Uint16(|p.payload|));
    part := part + p.payload;
  }

  /** The two slice expressions of the loop take the next payload. */
  method NextPayload(message: Bytes, position: nat, room: nat) returns (payload: Bytes)
    requires position < |message|
    ensures payload == First(Suffix(message, position), room)
  {
    if |message| - position <= room {
      payload := message[position..];
    } else {
      payload := message[position..position + room];
    }
  }

  lemma SuffixOfSuffix(message: Bytes, position: nat, room: nat)
    ensures Suffix(Suffix(message, position), room) == Suffix(message, position + room)
  {
  }

  /** The state of the loop in SendParts: what is sent, and what is left of all the parts. */
  ghost predicate Sending(all: seq<Part>, sent: seq<Part>, header: Part, rest: Bytes, room: nat, result: seq<Bytes>, md5: Checksum)
    requires room > 0
  {
    result == EncodeAll(sent, md5) && sent + PartsFrom(header, rest, room) == all
  }

  /** One turn of the loop: the next part moves from what is left to what is sent. */
  lemma SendNext(all: seq<Part>, sent: seq<Part>, part: Part, next: Part, rest: Bytes, room: nat,
                 result: seq<Bytes>, packet: Bytes, md5: Checksum)
    requires room > 0 && rest != [] && Sending(all, sent, part.(payload := []), rest, room, result, md5)
    requires part.payload == First(rest, room) && next == part.(number := Uint16(part.number + 1), payload := [])
    requires packet == Encode(part, md5)
    ensures Sending(all, sent + [part], next, Suffix(rest, room), room, result + [packet], md5)
  {
    var tail := PartsFrom(next, Suffix(rest, room), room);
    assert PartsFrom(part.(payload := []), rest, room) == [part] + tail;
    Associative(sent, [part], tail);
    EncodeAllSnoc(sent, part, md5);
  }

  lemma Associative(a: seq<Part>, b: seq<Part>, c: seq<Part>)
    ensures a + (b + c) == (a + b) + c
  {
  }

  lemma AllSent(all: seq<Part>, sent: seq<Part>, header: Part, room: nat, result: seq<Bytes>, md5: Checksum)
    requires room > 0 && Sending(all, sent, header, [], room, result, md5)
    ensures result == EncodeAll(all, md5)
  {
    assert sent + [] == sent;
  }

  lemma NoneSent(header: Part, message: Bytes, room: nat, md5: Checksum)
    requires room > 0
    ensures Sending(PartsFrom(header, message, room), [], header, Suffix(message, 0), room, [], md5)
  {
    assert Suffix(message, 0) == message;
  }

  /** The loop of FormatMessage, for a header that leaves `room` bytes of every packet. */
  method SendParts(messageType: byte, count: uint16, id: Bytes, message: Bytes, room: nat, md5: Checksum)
    returns (result: seq<Bytes>)
    requires room > 0
    ensures result == EncodeAll(PartsFrom(Part(messageType, 1, count, id, []), message, room), md5)
  {
    result := [];
    var messageNumber: uint16 := 1;
    var position: nat := 0;
    ghost var sent: seq<Part>, header := [], Part(messageType, 1, count, id, []);
    ghost var all := PartsFrom(header, message, room);
    NoneSent(header, message, room, md5);
    while position < |message|
      invariant header == Part(messageType, messageNumber, count, id, [])
      invariant Sending(all, sent, header, Suffix(message, position), room, result, md5)
    {
      var payload := NextPayload(message, position, room);
      var part := Part(messageType, messageNumber, count, id, payload);
      var packet := OnePacket(part, md5);
      messageNumber := Uint16(messageNumber + 1);
      header := Part(messageType, messageNumber, count, id, []);
      SuffixOfSuffix(message, position, room);
      SendNext(all, sent, part, header, Suffix(message, position), room, result, packet, md5);
      sent := sent + [part];
      result := result + [packet];
      position := position + room;
    }
    AllSent(all, sent, header, room, result, md5);
  }

  /** FormatMessage. Message lengths stay below 2^31 - 2^16, where int32 positions do not wrap. */
  method FormatMessage(messageType: byte, id: Bytes, message: Bytes, mtu: nat, md5: Checksum)
    returns (r: Formatted)
    requires mtu < 0x1_0000 && |message| < 0x7FFF_0000
    ensures r == Format(messageType, id, message, mtu, md5)
  {
    if |message| == 0 {
      var part := OnePacket(Part(messageType, 1, 1, id, []), md5);
      EncodeAllSnoc([], Part(messageType, 1, 1, id, []), md5);
      return Packets([part]);
    }
    var nrMsgs := NrMessages(mtu, id, |message|);
    if nrMsgs.DivisionByZero? { return Panic; }
    ZeroRoomPanics(mtu, id, |message|);
    var remainingLength := mtu - HEADER - |id|;
    if remainingLength < 0 { return Panic; }
    var result := SendParts(messageType, nrMsgs.n, id, message, remainingLength, md5);
    return Packets(result);
  }
}

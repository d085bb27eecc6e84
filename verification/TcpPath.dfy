/** The TCP side of downstream: what handleConnection passes on from a stream, and a record that crosses over it. */
module TcpPath {
  import opened Bytes
  import opened Options
  import opened Formatter
  import opened Parser
  import opened Network
  import opened Completion
  import opened Transfer
  import opened TransferOnce
  import opened Framing

  /** The frames passed to the callback, without a pin manager: up to the first error or rotation frame. */
  function Passed(stream: Bytes, at: nat): seq<Bytes>
    requires at <= |stream|
    decreases |stream| - at
  {
    match ReadFrame(stream, at)
    case Broken(_) => []
    case Frame(end) => if D.IsRotationFrame(stream[at..end]) then [] else [stream[at..end]] + Passed(stream, end)
  }

  /** The loop of handleConnection; `passed` collects the calls of the callback. */
  method HandleConnection(reader: Reader) returns (passed: seq<Bytes>)
    requires reader.Valid()
    modifies reader
    ensures reader.Valid() && passed == Passed(reader.stream, old(reader.position))
  {
    passed := [];
    while true
      invariant reader.Valid()
      invariant passed + Passed(reader.stream, reader.position) == Passed(reader.stream, old(reader.position))
      decreases |reader.stream| - reader.position
    {
      var msg := reader.ReadMessage();
      if msg == None { return; }
      if |msg.value| > 0 {
        if D.IsRotationFrame(msg.value) { return; }
        passed := passed + [msg.value];
      }
    }
  }

  /** A packet that ends the connection: its id is too long for the framing, or looks like that of a rotation frame. */
  predicate EndsConnection(p: Part) {
    |p.id| > 1024 || NamesRotation(p.id)
  }

  predicate Encodable(p: Part) {
    |p.id| < 0x1_0000 && |p.payload| < 0x1_0000
  }

  /** The packets in front of the first one that ends the connection. */
  function InFront(parts: seq<Part>): seq<Part> {
    if parts == [] || EndsConnection(parts[0]) then [] else [parts[0]] + InFront(parts[1..])
  }

  lemma UnreadableBreaks(before: Bytes, p: Part, after: Bytes, md5: Checksum)
    requires Encodable(p) && !Readable(p)
    ensures ReadFrame(before + Encode(p, md5) + after, |before|).Broken?
  {
    var b, n, at := Encode(p, md5), |p.id|, |before|;
    var stream := before + b + after;
    HeaderFields(p, md5);
    VariableFields(p, md5);
    assert stream[at..at + |b|] == b;
    Inside(stream, at, b, 5);
    Inside(stream, at, b, 11 + n);
    assert stream[at + 7..at + 7 + n] == b[7..7 + n];
  }

  /** One packet at the front of a stream. */
  lemma PassedStep(before: Bytes, p: Part, after: Bytes, md5: Checksum)
    requires Encodable(p)
    ensures var stream := before + Encode(p, md5) + after;
            Passed(stream, |before|)
            == if EndsConnection(p) then [] else [Encode(p, md5)] + Passed(stream, |before + Encode(p, md5)|)
  {
    var b := Encode(p, md5);
    if Readable(p) {
      ReadsBackIff(before, p, after, md5);
      RotationIffPrefix(p, md5);
      assert (before + b + after)[|before|..|before + b|] == b;
    } else {
      UnreadableBreaks(before, p, after, md5);
    }
  }

  /** Of any packets put end to end, the callback gets exactly those in front of the first one that ends the connection. */
  lemma {:induction false} PassedAreInFront(before: Bytes, parts: seq<Part>, md5: Checksum)
    requires forall p :: p in parts ==> Encodable(p)
    ensures Passed(before + Flatten(EncodeEach(parts, md5)), |before|) == EncodeEach(InFront(parts), md5)
    decreases |parts|
  {
    if parts == [] {
      assert before + [] == before;
    } else {
      var b, rest := Encode(parts[0], md5), EncodeEach(parts[1..], md5);
      PassedAreInFront(before + b, parts[1..], md5);
      PassedStep(before, parts[0], Flatten(rest), md5);
      FlattenCons(before, b, rest);
      if !EndsConnection(parts[0]) { assert InFront(parts)[1..] == InFront(parts[1..]); }
    }
  }

  /** Packets as the receiver handles them, each at some time. */
  function Wires(packets: seq<Bytes>, clock: nat -> int): (inputs: seq<Input>)
    ensures |inputs| == |packets|
  {
    seq(|packets|, i requires 0 <= i < |packets| => Wire(packets[i], clock(i)))
  }

  lemma {:induction false} NoneEnds(parts: seq<Part>)
    requires forall p :: p in parts ==> !EndsConnection(p)
    ensures InFront(parts) == parts
  {
    if parts != [] { NoneEnds(parts[1..]); }
  }

  /**
   * A record over TCP, among packets of other messages in any order: if no packet ends the connection, all packets
   * of the record are on the stream, and one of them is there once, then the record is written once, as it is to be.
   */
  lemma RecordOverTcp(u: U.Config, d: D.Config, s: D.State, from: int, r: KafkaRecord,
                      parts: seq<Part>, clock: nat -> int, md5: Checksum, k: uint16)
    requires forall p :: p in parts ==> Encodable(p) && !EndsConnection(p)
    requires Crosses(u, d, s, from, r, Wires(EncodeEach(parts, md5), clock), md5)
    requires var x := SendOf(MessageOf(u, from, r));
             var arrivals := Arrivals(Wires(EncodeEach(parts, md5), clock), s.cache.maxNrMessages, md5);
             Arrived(x, arrivals) && 1 <= k <= |x.parts| && Copies(arrivals, x, k) == 1
    ensures PayloadFor(u, KeyFor(u, r), r.value, r.denied).Some?
    ensures var stream := Flatten(EncodeEach(parts, md5));
            Writes(d, s, Wires(Passed(stream, 0), clock), md5, KeyFor(u, r)) == [WriteFor(u, d, r)]
  {
    assert [] + Flatten(EncodeEach(parts, md5)) == Flatten(EncodeEach(parts, md5));
    PassedAreInFront([], parts, md5);
    NoneEnds(parts);
    RecordIsWrittenOnce(u, d, s, from, r, Wires(EncodeEach(parts, md5), clock), md5, k);
  }
}

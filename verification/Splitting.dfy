/** What the packets of one message say about it: their number, their payloads and the count they declare. */
module Splitting {
  import opened Bytes
  import opened Formatter

  /** Packets needed for `length` bytes at `chunk` bytes a packet. */
  function PartsNeeded(length: nat, chunk: nat): nat
    requires chunk > 0
    decreases length
  {
    if length == 0 then 0 else 1 + PartsNeeded(if chunk < length then length - chunk else 0, chunk)
  }

  lemma DivStep(x: nat, c: nat)
    requires c > 0
    ensures (x + c) / c == x / c + 1 && (x + c) % c == x % c
  {
    var q, r := x / c, x % c;
    assert x + c == (q + 1) * c + r;
    DivUnique(x + c, c, q + 1, r);
  }

  lemma DivUnique(x: nat, c: nat, q: nat, r: nat)
    requires c > 0 && r < c && x == q * c + r
    ensures x / c == q && x % c == r
  {
    var d := x / c - q;
    assert x == (x / c) * c + x % c;
    assert d * c == (x / c) * c - q * c;
    assert d * c == r - x % c;
    Multiples(d, c);
  }

  lemma Multiples(d: int, c: nat)
    requires c > 0
    ensures d > 0 ==> d * c >= c
    ensures d < 0 ==> d * c + c <= 0
  {
  }

  lemma {:induction false} PartsNeededIsDivision(length: nat, chunk: nat)
    requires chunk > 0
    ensures PartsNeeded(length, chunk) == length / chunk + if length % chunk == 0 then 0 else 1
    decreases length
  {
    if length <= chunk {
      if length == chunk { DivUnique(length, chunk, 1, 0); } else { DivUnique(length, chunk, 0, length); }
    } else {
      PartsNeededIsDivision(length - chunk, chunk);
      DivStep(length - chunk, chunk);
    }
  }

  function Payloads(parts: seq<Part>): (s: seq<Bytes>)
    ensures |s| == |parts|
  {
    seq(|parts|, i requires 0 <= i < |parts| => parts[i].payload)
  }

  lemma {:induction false} PartsFromCount(p: Part, rest: Bytes, chunk: nat)
    requires chunk > 0
    ensures |PartsFrom(p, rest, chunk)| == PartsNeeded(|rest|, chunk)
    decreases |rest|
  {
    if rest != [] { PartsFromCount(p.(number := Uint16(p.number + 1)), Suffix(rest, chunk), chunk); }
  }

  /** One part of a message: the header counted on, and at most `chunk` bytes. */
  predicate IsPart(part: Part, p: Part, i: nat, chunk: nat) {
    0 < |part.payload| <= chunk && part == p.(number := Uint16(p.number + i), payload := part.payload)
  }

  /** Every part repeats the header, counts up from its start in uint16 and carries at most `chunk` bytes. */
  lemma {:induction false} PartsFromShape(p: Part, rest: Bytes, chunk: nat, i: nat)
    requires chunk > 0 && i < |PartsFrom(p, rest, chunk)|
    ensures IsPart(PartsFrom(p, rest, chunk)[i], p, i, chunk)
    decreases |rest|
  {
    var p', rest' := p.(number := Uint16(p.number + 1)), Suffix(rest, chunk);
    var tail := PartsFrom(p', rest', chunk);
    assert PartsFrom(p, rest, chunk) == [p.(payload := First(rest, chunk))] + tail;
    if i > 0 {
      PartsFromShape(p', rest', chunk, i - 1);
      CountsOn(tail[i - 1], p, i, chunk);
    }
  }

  lemma CountsOn(part: Part, p: Part, i: nat, chunk: nat)
    requires i > 0 && IsPart(part, p.(number := Uint16(p.number + 1)), i - 1, chunk)
    ensures IsPart(part, p, i, chunk)
  {
    Uint16Sum(p.number, i);
  }

  lemma Uint16Sum(n: nat, i: nat)
    requires i > 0
    ensures Uint16(Uint16(n + 1) + (i - 1)) == Uint16(n + i)
  {
  }

  lemma PayloadsCons(head: Part, tail: seq<Part>)
    ensures Flatten(Payloads([head] + tail)) == head.payload + Flatten(Payloads(tail))
  {
    assert Payloads([head] + tail) == [head.payload] + Payloads(tail);
  }

  /** The payloads, put end to end, are the message. */
  lemma {:induction false} PayloadsConcatenate(p: Part, rest: Bytes, chunk: nat)
    requires chunk > 0
    ensures Flatten(Payloads(PartsFrom(p, rest, chunk))) == rest
    decreases |rest|
  {
    if rest != [] {
      var p', rest' := p.(number := Uint16(p.number + 1)), Suffix(rest, chunk);
      PayloadsConcatenate(p', rest', chunk);
      PayloadsCons(p.(payload := First(rest, chunk)), PartsFrom(p', rest', chunk));
      assert rest == First(rest, chunk) + rest';
    }
  }

  /** When FormatMessage produces packets. */
  predicate HasRoom(id: Bytes, message: Bytes, mtu: nat) {
    message == [] || Chunk(mtu, id) > 0
  }

  lemma RoomIff(messageType: byte, id: Bytes, message: Bytes, mtu: nat)
    requires mtu < 0x1_0000
    ensures SplitMessage(messageType, id, message, mtu).Parts? <==> HasRoom(id, message, mtu)
  {
  }

  /** What every packet of a message declares. */
  function Declared(id: Bytes, length: nat, mtu: nat): uint16
    requires length > 0 ==> Chunk(mtu, id) > 0
  {
    if length == 0 then 1 else Uint16(1 + length / Chunk(mtu, id))
  }

  function Emitted(id: Bytes, length: nat, mtu: nat): nat
    requires length > 0 ==> Chunk(mtu, id) > 0
  {
    if length == 0 then 1 else PartsNeeded(length, Chunk(mtu, id))
  }

  /** The messages whose packets declare their true number. */
  predicate CountsExactly(id: Bytes, length: nat, mtu: nat)
    requires length > 0 ==> Chunk(mtu, id) > 0
  {
    length == 0 || (length % Chunk(mtu, id) != 0 && 1 + length / Chunk(mtu, id) < 0x1_0000)
  }

  /** A message's packets: one header, ascending numbers, and payloads that concatenate to the message. */
  lemma SplitShape(messageType: byte, id: Bytes, message: Bytes, mtu: nat)
    requires mtu < 0x1_0000 && HasRoom(id, message, mtu)
    ensures SplitMessage(messageType, id, message, mtu).Parts?
    ensures var parts := SplitMessage(messageType, id, message, mtu).parts;
            |parts| == Emitted(id, |message|, mtu) && |parts| > 0
            && Flatten(Payloads(parts)) == message
            && forall i :: 0 <= i < |parts| ==>
                 parts[i] == Part(messageType, Uint16(i + 1), Declared(id, |message|, mtu), id, parts[i].payload)
                 && (message != [] ==> 0 < |parts[i].payload| <= Chunk(mtu, id))
  {
    var parts := SplitMessage(messageType, id, message, mtu).parts;
    if message == [] {
      assert Payloads(parts) == [[]];
      assert Flatten([[]]) == [] + Flatten([]);
    } else {
      var p := Part(messageType, 1, Declared(id, |message|, mtu), id, []);
      PartsFromCount(p, message, Chunk(mtu, id));
      forall i | 0 <= i < |parts|
        ensures parts[i] == Part(messageType, Uint16(i + 1), Declared(id, |message|, mtu), id, parts[i].payload)
        ensures 0 < |parts[i].payload| <= Chunk(mtu, id)
      {
        PartsFromShape(p, message, Chunk(mtu, id), i);
      }
      PayloadsConcatenate(p, message, Chunk(mtu, id));
    }
  }

  /** The count in the headers is the number of packets for exactly these messages. */
  lemma DeclaredIsEmittedIff(messageType: byte, id: Bytes, message: Bytes, mtu: nat)
    requires mtu < 0x1_0000 && HasRoom(id, message, mtu)
    ensures var parts := SplitMessage(messageType, id, message, mtu).parts;
            parts[0].count == |parts| <==> CountsExactly(id, |message|, mtu)
  {
    SplitShape(messageType, id, message, mtu);
    if message != [] { PartsNeededIsDivision(|message|, Chunk(mtu, id)); }
  }

  /** A positive multiple of the chunk size declares one packet more than is sent, until uint16 overflows. */
  lemma ExactMultipleDeclaresOneMore(messageType: byte, id: Bytes, message: Bytes, mtu: nat)
    requires mtu < 0x1_0000 && HasRoom(id, message, mtu) && message != []
    requires |message| % Chunk(mtu, id) == 0 && 1 + |message| / Chunk(mtu, id) < 0x1_0000
    ensures var parts := SplitMessage(messageType, id, message, mtu).parts;
            parts[0].count == |parts| + 1
  {
    SplitShape(messageType, id, message, mtu);
    PartsNeededIsDivision(|message|, Chunk(mtu, id));
  }
}

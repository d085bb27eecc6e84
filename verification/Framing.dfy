/** TCPAdapter.readMessage of src/downstream/adapters.go: cutting a byte stream back into packets. */
module Framing {
  import opened Bytes
  import opened Options
  import opened Formatter
  import opened Parser

  const MAX_ID := 1024
  const MAX_ROTATION_PAYLOAD := 8192

  /** "PIN_TLS" */
  const PIN_TLS: Bytes := [80, 73, 78, 95, 84, 76, 83]

  /** A frame that ends at `end`, or an error after reading up to `end`. */
  datatype Read = Frame(end: nat) | Broken(end: nat)

  /** readMessage at position `at` of the stream; ReadFull reads to the end before it fails. */
  function ReadFrame(stream: Bytes, at: nat): (r: Read)
    requires at <= |stream|
    ensures at <= r.end <= |stream|
  {
    if |stream| < at + 7 then Broken(|stream|)
    else
      var idLen := Get16(stream, at + 5);
      if idLen > MAX_ID then Broken(at + 7)
      else if |stream| < at + HEADER + idLen then Broken(|stream|)
      else
        var payloadLen := Get16(stream, at + 11 + idLen);
        if PIN_TLS <= stream[at + 7..at + 7 + idLen] && payloadLen > MAX_ROTATION_PAYLOAD then Broken(at + HEADER + idLen)
        else if |stream| < at + HEADER + idLen + payloadLen then Broken(|stream|)
        else Frame(at + HEADER + idLen + payloadLen)
  }

  /** The buffered reader of one connection. */
  class Reader {
    const stream: Bytes
    var position: nat

    ghost predicate Valid()
      reads this
    {
      position <= |stream|
    }

    constructor (stream: Bytes)
      ensures Valid() && this.stream == stream && position == 0
    {
      this.stream := stream;
      position := 0;
    }

    /** io.ReadFull: all n bytes, or an error after consuming what there is. */
    method ReadFull(n: nat) returns (r: Option<Bytes>)
      requires Valid()
      modifies this
      ensures Valid()
      ensures if old(position) + n <= |stream| then position == old(position) + n && r == Some(stream[old(position)..position])
              else position == |stream| && r == None
    {
      if n <= |stream| - position {
        r := Some(stream[position..position + n]);
        position := position + n;
      } else {
        r := None;
        position := |stream|;
      }
    }

    method ReadMessage() returns (r: Option<Bytes>)
      requires Valid()
      modifies this
      ensures Valid() && position == ReadFrame(stream, old(position)).end
      ensures r == if ReadFrame(stream, old(position)).Frame? then Some(stream[old(position)..position]) else None
    {
      ghost var at := position;
      var header := ReadFull(7);
      if header == None { return None; }
      var idLen := Get16(header.value, 5);
      if idLen > MAX_ID { return None; }
      var idAndChecksum := ReadFull(idLen + 4);
      if idAndChecksum == None { return None; }
      var payloadLenBytes := ReadFull(2);
      if payloadLenBytes == None { return None; }
      var payloadLen := Get16(payloadLenBytes.value, 0);
      assert idAndChecksum.value[..idLen] == stream[at + 7..at + 7 + idLen];
      if PIN_TLS <= idAndChecksum.value[..idLen] && payloadLen > MAX_ROTATION_PAYLOAD { return None; }
      var payload := ReadFull(payloadLen);
      if payload == None { return None; }
      Joins(stream, at, at + 7, at + 11 + idLen, at + 13 + idLen, position);
      return Some(header.value + idAndChecksum.value + payloadLenBytes.value + payload.value);
    }
  }

  lemma Joins(stream: Bytes, a: nat, b: nat, c: nat, d: nat, e: nat)
    requires a <= b <= c <= d <= e <= |stream|
    ensures stream[a..b] + stream[b..c] + stream[c..d] + stream[d..e] == stream[a..e]
  {
  }

  /** The id starts with "PIN_TLS". */
  predicate NamesRotation(id: Bytes) {
    [80, 73, 78, 95, 84, 76, 83] <= id
  }

  /** The packets readMessage passes on: ids up to 1024 bytes, and no long payload under a rotation id. */
  predicate Readable(p: Part) {
    |p.id| <= 1024 && !(NamesRotation(p.id) && |p.payload| > 8192)
  }

  /** A packet in a stream is read back exactly, whatever surrounds it, if and only if it is readable. */
  lemma ReadsBackIff(before: Bytes, p: Part, after: Bytes, md5: Checksum)
    requires |p.id| < 0x1_0000 && |p.payload| < 0x1_0000
    ensures ReadFrame(before + Encode(p, md5) + after, |before|) == Frame(|before| + |Encode(p, md5)|) <==> Readable(p)
  {
    var b, n, at := Encode(p, md5), |p.id|, |before|;
    var stream := before + b + after;
    HeaderFields(p, md5);
    VariableFields(p, md5);
    assert stream[at..at + |b|] == b;
    Inside(stream, at, b, 5);
    Inside(stream, at, b, 11 + n);
    assert stream[at + 7..at + 7 + n] == b[7..7 + n];
  }

  lemma Inside(stream: Bytes, at: nat, b: Bytes, k: nat)
    requires at + |b| <= |stream| && stream[at..at + |b|] == b && k + 2 <= |b|
    ensures Get16(stream, at + k) == Get16(b, k)
  {
    assert stream[at + k] == b[k] && stream[at + k + 1] == b[k + 1];
  }

  /** Repeated readMessage up to the first error, and where the error left off reading. */
  function ReadAll(stream: Bytes, at: nat): (seq<Bytes>, nat)
    requires at <= |stream|
    decreases |stream| - at
  {
    match ReadFrame(stream, at)
    case Broken(_) => ([], at)
    case Frame(end) =>
      var (frames, stop) := ReadAll(stream, end);
      ([stream[at..end]] + frames, stop)
  }

  function EncodeEach(parts: seq<Part>, md5: Checksum): seq<Bytes> {
    if parts == [] then [] else [Encode(parts[0], md5)] + EncodeEach(parts[1..], md5)
  }

  lemma ReadAllStep(before: Bytes, b: Bytes, after: Bytes)
    requires ReadFrame(before + b + after, |before|) == Frame(|before + b|) && b != []
    ensures var (frames, stop) := ReadAll(before + b + after, |before + b|);
            ReadAll(before + b + after, |before|) == ([b] + frames, stop)
  {
    assert (before + b + after)[|before|..|before + b|] == b;
  }

  /** The framing is a prefix code: any readable packets, put end to end, are read back as they were sent. */
  lemma {:induction false} StreamReadsBack(before: Bytes, parts: seq<Part>, md5: Checksum)
    requires forall p :: p in parts ==> Readable(p) && |p.payload| < 0x1_0000
    ensures var stream := before + Flatten(EncodeEach(parts, md5));
            ReadAll(stream, |before|) == (EncodeEach(parts, md5), |stream|)
    decreases |parts|
  {
    if parts != [] {
      var b, rest := Encode(parts[0], md5), EncodeEach(parts[1..], md5);
      StreamReadsBack(before + b, parts[1..], md5);
      ReadsBackIff(before, parts[0], Flatten(rest), md5);
      ReadAllStep(before, b, Flatten(rest));
      FlattenCons(before, b, rest);
    }
  }

  lemma FlattenCons(before: Bytes, b: Bytes, rest: seq<Bytes>)
    ensures before + Flatten([b] + rest) == before + b + Flatten(rest)
  {
    assert ([b] + rest)[1..] == rest;
  }

  /** Whatever ParseMessage accepts, encoding its fields gives the same bytes. */
  lemma EncodeDecode(b: Bytes, maxNrMessages: uint16, md5: Checksum)
    requires |b| < 0x1_0000 && Decode(b, maxNrMessages, md5).Some?
    ensures Encode(Decode(b, maxNrMessages, md5).value, md5) == b
  {
    var p := Decode(b, maxNrMessages, md5).value;
    var n := |p.id|;
    assert p.id == b[7..7 + n] && p.payload == b[13 + n..|b|];
    PutGet(b, 1);
    PutGet(b, 3);
    PutGet(b, 5);
    PutGet(b, 11 + n);
    Reassembled(b, n);
  }

  lemma Reassembled(b: Bytes, n: nat)
    requires HEADER + n <= |b|
    ensures b == [b[0]] + b[1..3] + b[3..5] + b[5..7] + b[7..7 + n] + b[7 + n..11 + n] + b[11 + n..13 + n] + b[13 + n..|b|]
  {
  }

  lemma PutGet(b: Bytes, at: nat)
    requires at + 2 <= |b|
    ensures Put16(Get16(b, at)) == b[at..at + 2]
  {
  }
}

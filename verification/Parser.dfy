/** src/protocol/parser.go and src/protocol/cache.go: reading packets and putting messages back together. */
module Parser {
  import opened Bytes
  import opened Formatter
  import opened Options

  /** The header checks of ParseMessage, with `length` reduced to uint16 as in the code. */
  function Decode(message: Bytes, maxNrMessages: uint16, md5: Checksum): Option<Part> {
    var length := Uint16(|message|);
    if length < HEADER then None
    else
      var count := Get16(message, 3);
      var idLength := Get16(message, 5);
      if count > maxNrMessages || idLength > length - HEADER then None
      else
        var payloadLength := Get16(message, 11 + idLength);
        if length != HEADER + idLength + payloadLength then None
        else
          var payload := message[HEADER + idLength..length];
          if message[7 + idLength..11 + idLength] != CalculateChecksum(payload, md5) then None
          else Some(Part(message[0], Get16(message, 1), count, message[7..7 + idLength], payload))
  }

  /** One message being collected. `end` is when CleanList may drop it. */
  datatype Entry = Entry(end: int, len: uint16, val: map<uint16, Bytes>)

  datatype CacheState = CacheState(entries: map<Bytes, Entry>, maxEntries: int, maxNrMessages: uint16)

  /** 30 s and one millisecond, in nanoseconds. */
  const ENTRY_LIFETIME := 30_001_000_000

  function NewEntry(now: int): Entry {
    Entry(now + ENTRY_LIFETIME, 0, map[])
  }

  /** The parts i, i + 1, ..., n one after the other. */
  function JoinParts(val: map<uint16, Bytes>, i: nat, n: uint16): Bytes
    requires forall k: uint16 :: i <= k <= n ==> k in val
    decreases n + 1 - i
  {
    if i > n then [] else val[i] + JoinParts(val, i + 1, n)
  }

  predicate HasParts(val: map<uint16, Bytes>, n: uint16) {
    forall k: uint16 :: 1 <= k <= n ==> k in val
  }

  /** assembleMessage: the uint16 loop variable of a 65535-part entry wraps to the missing part 0. */
  function Assemble(e: Entry): Option<Bytes> {
    if e.len < 0xFFFF && HasParts(e.val, e.len) then Some(JoinParts(e.val, 1, e.len)) else None
  }

  predicate IsComplete(e: Entry) {
    0 < e.len <= Uint16(|e.val|)
  }

  /** The entry after one more part; None when a new id meets a full cache. */
  function EntryWith(s: CacheState, p: Part, now: int): Option<Entry> {
    if p.id !in s.entries then
      if |s.entries| >= s.maxEntries then None
      else Some(NewEntry(now).(len := p.count, val := map[p.number := p.payload]))
    else
      var e := s.entries[p.id];
      Some(e.(len := if e.len == 0 then p.count else e.len, val := e.val[p.number := p.payload]))
  }

  function AddPart(s: CacheState, p: Part, now: int): CacheState {
    match EntryWith(s, p, now)
    case None => s
    case Some(e) => s.(entries := s.entries[p.id := e])
  }

  function Remove(s: CacheState, id: Bytes): CacheState {
    s.(entries := s.entries - {id})
  }

  function Clean(s: CacheState, now: int): CacheState {
    s.(entries := map id | id in s.entries && !(s.entries[id].end < now) :: s.entries[id])
  }

  /** What a caller of ParseMessage sees: an error, nothing yet, or a message. */
  datatype Output = Failed | Pending | Delivered(messageType: byte, id: Bytes, payload: Bytes)

  /** The message the part completes, before its entry is removed. */
  function Completed(s: CacheState, p: Part, now: int): Option<Bytes> {
    match EntryWith(s, p, now)
    case None => None
    case Some(e) => if IsComplete(e) then Assemble(e) else None
  }

  /** One call of ParseMessage on a decoded packet. */
  function StepPart(s: CacheState, p: Part, now: int): (CacheState, Output) {
    if p.count <= 1 then (s, Delivered(p.messageType, p.id, p.payload))
    else
      match Completed(s, p, now)
      case None => (AddPart(s, p, now), Pending)
      case Some(m) => (Remove(AddPart(s, p, now), p.id), Delivered(p.messageType, p.id, m))
  }

  function Step(s: CacheState, message: Bytes, now: int, md5: Checksum): (CacheState, Output) {
    match Decode(message, s.maxNrMessages, md5)
    case None => (s, Failed)
    case Some(p) => StepPart(s, p, now)
  }

  class MessageCache {
    var entries: map<Bytes, Entry>
    var maxEntries: int
    var maxNrMessages: uint16

    function State(): CacheState
      reads this
    {
      CacheState(entries, maxEntries, maxNrMessages)
    }

    constructor ()
      ensures State() == CacheState(map[], 100_000, 4096)
    {
      entries, maxEntries, maxNrMessages := map[], 100_000, 4096;
    }

    method SetLimits(newMaxEntries: int, newMaxNrMessages: uint16)
      modifies this
      ensures State() == CacheState(old(entries), newMaxEntries, newMaxNrMessages)
    {
      maxEntries := newMaxEntries;
      maxNrMessages := newMaxNrMessages;
    }

    /** A refused fragment yields the zero entry; otherwise the snapshot is the stored entry. */
    method AddPartAndSnapshot(id: Bytes, messageId: uint16, maxMessageId: uint16, payload: Bytes, messageType: byte, now: int)
      returns (snapshot: Entry, complete: bool)
      modifies this
      ensures var p := Part(messageType, messageId, maxMessageId, id, payload);
              State() == AddPart(old(State()), p, now)
              && (match EntryWith(old(State()), p, now)
                  case None => !complete
                  case Some(e) => snapshot == e && complete == IsComplete(e))
    {
      var entry;
      if id !in entries {
        if |entries| >= maxEntries {
          return Entry(0, 0, map[]), false;
        }
        entry := NewEntry(now);
        entry := entry.(len := maxMessageId);
      } else {
        entry := entries[id];
        if entry.len == 0 {
          entry := entry.(len := maxMessageId);
        }
      }
      entry := entry.(val := entry.val[messageId := payload]);
      entries := entries[id := entry];
      snapshot := entry;
      complete := snapshot.len > 0 && Uint16(|snapshot.val|) >= snapshot.len;
    }

    method RemoveEntry(id: Bytes)
      modifies this
      ensures State() == Remove(old(State()), id)
    {
      entries := entries - {id};
    }

    method CleanList(now: int)
      modifies this
      ensures State() == Clean(old(State()), now)
    {
      var todo := entries.Keys;
      while todo != {}
        invariant maxEntries == old(maxEntries) && maxNrMessages == old(maxNrMessages)
        invariant todo <= entries.Keys <= old(entries).Keys
        invariant forall id :: id in old(entries) ==>
          (id in entries <==> id in todo || !(old(entries)[id].end < now))
        invariant forall id :: id in entries ==> entries[id] == old(entries)[id]
        decreases todo
      {
        var id :| id in todo;
        if entries[id].end < now {
          entries := entries - {id};
        }
        todo := todo - {id};
      }
    }
  }

  /** assembleMessage. The caller has checked completeness, so fewer than 65536 parts are stored. */
  method AssembleMessage(msg: Entry) returns (r: Option<Bytes>)
    requires IsComplete(msg)
    ensures r == Assemble(msg)
  {
    var result: Bytes := [];
    var i := 1;
    ghost var next := 1;
    while i <= msg.len
      invariant 1 <= next <= msg.len + 1 && i == Uint16(next)
      invariant HasParts(msg.val, next - 1)
      invariant next == 0x1_0000 ==> 0 !in msg.val
      invariant result == JoinParts(msg.val, 1, next - 1)
      decreases 0x1_0000 - next
    {
      if i !in msg.val { return None; }
      JoinSnoc(msg.val, 1, next - 1);
      result := result + msg.val[i];
      if i == 0xFFFF { PartZeroMissing(msg); }
      i := Uint16(i + 1);
      next := next + 1;
    }
    return Some(result);
  }

  lemma {:induction false} JoinSnoc(val: map<uint16, Bytes>, i: nat, n: uint16)
    requires i <= n + 1 < 0x1_0000
    requires forall k: uint16 :: i <= k <= n + 1 ==> k in val
    ensures JoinParts(val, i, n + 1) == JoinParts(val, i, n) + val[n + 1]
    decreases n + 1 - i
  {
    if i == n + 1 {
      assert JoinParts(val, i + 1, n + 1) == [];
    } else {
      JoinSnoc(val, i + 1, n);
    }
  }

  /** The part numbers 1, ..., n. */
  function Range(n: uint16): (r: set<uint16>)
    ensures |r| == n
    ensures forall k :: k in r <==> 1 <= k <= n
  {
    if n == 0 then {} else Range(n - 1) + {n}
  }

  lemma SubsetSize<T>(a: set<T>, b: set<T>)
    requires a <= b
    ensures |a| <= |b|
    ensures |a| == |b| ==> a == b
  {
    assert b == a + (b - a);
  }

  /** There are 65536 part numbers, and the count of a complete entry has not wrapped to 0. */
  lemma PartZeroMissing(e: Entry)
    requires IsComplete(e) && HasParts(e.val, 0xFFFF)
    ensures 0 !in e.val
  {
    if 0 in e.val {
      ZeroAndRange(e.val.Keys, 0xFFFF);
    }
  }

  lemma ZeroAndRange(keys: set<uint16>, n: uint16)
    requires 0 in keys
    requires forall k: uint16 :: k in keys ==> k <= n
    requires forall k: uint16 :: 1 <= k <= n ==> k in keys
    ensures |keys| == n + 1
  {
    assert keys - {0} == Range(n);
  }

  lemma HeaderFields(p: Part, md5: Checksum)
    ensures var b := Encode(p, md5);
            b[0] == p.messageType && Get16(b, 1) == p.number && Get16(b, 3) == p.count
            && Get16(b, 5) == Uint16(|p.id|)
  {
    var fixed := [p.messageType] + Put16(p.number) + Put16(p.count) + Put16(Uint16(|p.id|));
    var rest := p.id + CalculateChecksum(p.payload, md5) + Put16(Uint16(|p.payload|)) + p.payload;
    assert Encode(p, md5) == fixed + rest;
    assert Encode(p, md5)[..7] == fixed;
  }

  lemma VariableFields(p: Part, md5: Checksum)
    ensures var b, n := Encode(p, md5), |p.id|;
            b[7..7 + n] == p.id && b[7 + n..11 + n] == CalculateChecksum(p.payload, md5)
            && Get16(b, 11 + n) == Uint16(|p.payload|) && b[HEADER + n..] == p.payload
  {
    var fixed := [p.messageType] + Put16(p.number) + Put16(p.count) + Put16(Uint16(|p.id|));
    var checksum, size := CalculateChecksum(p.payload, md5), Put16(Uint16(|p.payload|));
    Fields(fixed, p.id, checksum, size, p.payload);
    assert Encode(p, md5) == fixed + p.id + checksum + size + p.payload;
  }

  lemma Fields(a: Bytes, b: Bytes, c: Bytes, d: Bytes, e: Bytes)
    requires |d| == 2
    ensures var all := a + b + c + d + e;
            all[|a|..|a| + |b|] == b && all[|a| + |b|..|a| + |b| + |c|] == c
            && Get16(all, |a| + |b| + |c|) == Get16(d, 0) && all[|a| + |b| + |c| + |d|..] == e
  {
  }

  /** A packet that fits uint16 decodes to its fields, unless it declares more parts than allowed. */
  lemma DecodeEncode(p: Part, maxNrMessages: uint16, md5: Checksum)
    requires HEADER + |p.id| + |p.payload| < 0x1_0000
    ensures Decode(Encode(p, md5), maxNrMessages, md5) == if p.count > maxNrMessages then None else Some(p)
  {
    HeaderFields(p, md5);
    VariableFields(p, md5);
    var b := Encode(p, md5);
    assert b[HEADER + |p.id|..|b|] == b[HEADER + |p.id|..];
  }

  /** The reading cursor of ParseMessage, up to the checksum comparison. */
  method ReadPacket(message: Bytes, maxNrMessages: uint16, md5: Checksum) returns (r: Option<Part>)
    ensures r == Decode(message, maxNrMessages, md5)
  {
    var length := Uint16(|message|);
    if length < HEADER { return None; }
    var messageType := message[0];
    var messageNumber := Get16(message, 1);
    var sofar := 3;
    var nrMessages := Get16(message, sofar);
    sofar := 5;
    if nrMessages > maxNrMessages { return None; }
    var idLength := Get16(message, sofar);
    sofar := 7;
    if idLength > length - HEADER { return None; }
    var id := message[sofar..sofar + idLength];
    sofar := sofar + idLength;
    var checksum := message[sofar..sofar + 4];
    sofar := sofar + 4;
    var payloadLength := Get16(message, sofar);
    sofar := sofar + 2;
    if payloadLength > length - HEADER - idLength { return None; }
    var payload := message[sofar..sofar + payloadLength];
    sofar := sofar + payloadLength;
    if length != sofar { return None; }
    if CalculateChecksum(payload, md5) != checksum { return None; }
    return Some(Part(messageType, messageNumber, nrMessages, id, payload));
  }

  /** ParseMessage: one packet in, and the message it completes, if any, out. */
  method ParseMessage(message: Bytes, cache: MessageCache, now: int, md5: Checksum) returns (r: Output)
    modifies cache
    ensures (cache.State(), r) == Step(old(cache.State()), message, now, md5)
  {
    var packet := ReadPacket(message, cache.maxNrMessages, md5);
    if packet == None { return Failed; }
    var p := packet.value;
    if p.count > 1 {
      var snapshot, complete := cache.AddPartAndSnapshot(p.id, p.number, p.count, p.payload, p.messageType, now);
      if complete {
        var assembled := AssembleMessage(snapshot);
        if assembled.Some? {
          cache.RemoveEntry(p.id);
          return Delivered(p.messageType, p.id, assembled.value);
        }
      }
      return Pending;
    } else {
      return Delivered(p.messageType, p.id, p.payload);
    }
  }
}

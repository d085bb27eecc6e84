/** What the downstream side does with a completed message of each type, and when it reads a new key, in every run. */
module Dispatching {
  import opened Bytes
  import opened Options
  import opened Formatter
  import opened MessageTypes
  import opened Parser
  import opened Network
  import opened Transfer
  import opened TransferOnce

  // Records

  /** What is behind the encryption of a record, if it has any. */
  function Opened(d: D.Config, m: Message): Option<Bytes> {
    if m.messageType in {0, 32} then d.decrypt(m.payload) else Some(m.payload)
  }

  /** The gzip data is not empty, it is intact, and what it holds is within the limit, if there is one. */
  predicate Unpacks(d: D.Config, data: Bytes) {
    data != [] && d.gunzip(data).Some? && (d.maximumDecompressSize < 0 || |d.gunzip(data).value| <= d.maximumDecompressSize)
  }

  /** The value of a record that can be read: encrypted or not (6), and compressed (32) or not. */
  function ValueOf(d: D.Config, m: Message): Option<Bytes> {
    match Opened(d, m)
    case None => None
    case Some(data) =>
      if m.messageType !in {32, 38} then Some(data) else if Unpacks(d, data) then d.gunzip(data) else None
  }

  lemma RecordDispatch(d: D.Config, m: Message, now: int, last: int)
    requires m.messageType in {0, 6, 32, 38}
    ensures D.Dispatch(d, m.messageType, m.id, m.payload, now, last)
            == match ValueOf(d, m)
               case None => D.ErrorSent(m.id)
               case Some(value) =>
                 var (topic, partition) := D.Destination(d, m.id);
                 if 0 <= partition <= 0x7FFF_FFFF then D.Written(m.id, topic, partition, value) else D.Exits
  {
    if m.messageType < 32 { KindOfPlain(m.messageType); } else { KindOfFlagged(m.messageType); }
  }

  /**
   * A record whose encryption or compression cannot be undone is reported as an error under its id. One that can be read
   * is written, and a partition outside int32 ends the process.
   */
  lemma WrittenOrReported(d: D.Config, s: D.State, m: Message, inputs: seq<Input>, i: nat, now: int, md5: Checksum)
    requires m.messageType in {0, 6, 32, 38} && Awaited(s, m, inputs, i, now, md5) && Completing(s, m, inputs, i, now, md5)
    ensures EffectOf(d, s, m, inputs, i, now, md5)
            == match ValueOf(d, m)
               case None => D.ErrorSent(m.id)
               case Some(value) =>
                 var (topic, partition) := D.Destination(d, m.id);
                 if 0 <= partition <= 0x7FFF_FFFF then D.Written(m.id, topic, partition, value) else D.Exits
  {
    PacketOfMessage(d, s, m, inputs, i, now, md5);
    RecordDispatch(d, m, now, ReceiveAll(d, s, inputs, md5).lastKeyExchange);
  }

  // The status

  /** Whether the last packet that is no rotation frame could be parsed. */
  function Parsing(s: D.State, inputs: seq<Input>, md5: Checksum): bool {
    if inputs == [] then s.running
    else
      var before, input := inputs[..|inputs| - 1], inputs[|inputs| - 1];
      if input.CleanUp? || D.IsRotationFrame(input.packet) then Parsing(s, before, md5)
      else Decode(input.packet, s.cache.maxNrMessages, md5).Some?
  }

  lemma {:induction false} RunningIffParsing(d: D.Config, s: D.State, inputs: seq<Input>, md5: Checksum)
    ensures ReceiveAll(d, s, inputs, md5).running == Parsing(s, inputs, md5)
  {
    if inputs != [] {
      var before := inputs[..|inputs| - 1];
      RunningIffParsing(d, s, before, md5);
      ReceiveAllHandles(d, s, before, md5);
      RunningAfter(d, ReceiveAll(d, s, before, md5), inputs[|inputs| - 1], md5);
    }
  }

  lemma RunningAfter(d: D.Config, s: D.State, input: Input, md5: Checksum)
    ensures Transfer.Receive(d, s, input, md5).running
            == if input.CleanUp? || D.IsRotationFrame(input.packet) then s.running
               else Decode(input.packet, s.cache.maxNrMessages, md5).Some?
  {
  }

  // Keys

  /** What the downstream side does at each input of a run. */
  function Effects(d: D.Config, s: D.State, inputs: seq<Input>, md5: Checksum): (effects: seq<D.Effect>)
    ensures |effects| == |inputs|
  {
    if inputs == [] then []
    else
      var before := inputs[..|inputs| - 1];
      Effects(d, s, before, md5) + [EffectAt(d, ReceiveAll(d, s, before, md5), inputs[|inputs| - 1], md5)]
  }

  /** The time of the last key read among these effects of these inputs, or an earlier one. */
  function LastRead(inputs: seq<Input>, effects: seq<D.Effect>, earlier: int): int
    requires |effects| == |inputs|
  {
    if inputs == [] then earlier
    else
      var last := |inputs| - 1;
      if effects[last].KeyRead? then inputs[last].now else LastRead(inputs[..last], effects[..last], earlier)
  }

  /** Whether a key may be read at this time: the minimum interval has passed since the last, or none is set. */
  predicate MayRead(d: D.Config, now: int, last: int) {
    d.keyExchangeMinInterval <= 0 || now - last >= d.keyExchangeMinInterval
  }

  lemma DispatchedNotes(d: D.Config, s: D.State, t: byte, id: Bytes, payload: Bytes, now: int)
    ensures var (s', e) := D.Dispatched(d, s, t, id, payload, now);
            && s'.lastKeyExchange == (if e.KeyRead? then now else s.lastKeyExchange)
            && (e.KeyRead? ==> MayRead(d, now, s.lastKeyExchange))
  {
  }

  lemma PacketNotes(d: D.Config, s: D.State, packet: Bytes, now: int, md5: Checksum)
    ensures var (s', e) := D.HandlePacket(d, s, packet, now, md5);
            && s'.lastKeyExchange == (if e.KeyRead? then now else s.lastKeyExchange)
            && (e.KeyRead? ==> MayRead(d, now, s.lastKeyExchange))
  {
    if !D.IsRotationFrame(packet) {
      var (cache, out) := Step(s.cache, packet, now, md5);
      match out
      case Failed =>
      case Pending => DispatchedNotes(d, s.(cache := cache), TYPE_MULTIPART, [], [], now);
      case Delivered(t, id, payload) => DispatchedNotes(d, s.(cache := cache), t, id, payload, now);
    }
  }

  lemma ReadNotes(d: D.Config, s: D.State, input: Input, md5: Checksum)
    ensures var e := EffectAt(d, s, input, md5);
            && Transfer.Receive(d, s, input, md5).lastKeyExchange == (if e.KeyRead? then input.now else s.lastKeyExchange)
            && (e.KeyRead? ==> MayRead(d, input.now, s.lastKeyExchange))
  {
    if input.Wire? { PacketNotes(d, s, input.packet, input.now, md5); }
  }

  lemma {:induction false} LastReadIsNoted(d: D.Config, s: D.State, inputs: seq<Input>, md5: Checksum)
    ensures ReceiveAll(d, s, inputs, md5).lastKeyExchange == LastRead(inputs, Effects(d, s, inputs, md5), s.lastKeyExchange)
  {
    if inputs != [] {
      var before := inputs[..|inputs| - 1];
      assert Effects(d, s, inputs, md5)[..|before|] == Effects(d, s, before, md5);
      LastReadIsNoted(d, s, before, md5);
      ReadNotes(d, ReceiveAll(d, s, before, md5), inputs[|inputs| - 1], md5);
    }
  }

  /**
   * A key exchange message: the packet that completes it makes the key be read if the minimum interval has passed
   * since the last key read of the run, and is dropped otherwise. No packet before that does anything.
   */
  lemma KeyIsReadIff(d: D.Config, s: D.State, m: Message, inputs: seq<Input>, i: nat, now: int, md5: Checksum)
    requires m.messageType == 3 && Awaited(s, m, inputs, i, now, md5)
    ensures EffectOf(d, s, m, inputs, i, now, md5)
            == if !Completing(s, m, inputs, i, now, md5) then D.Nothing
               else if MayRead(d, now, LastRead(inputs, Effects(d, s, inputs, md5), s.lastKeyExchange)) then D.KeyRead(m.payload)
               else D.KeyRateLimited
  {
    PacketOfMessage(d, s, m, inputs, i, now, md5);
    LastReadIsNoted(d, s, inputs, md5);
  }

  lemma OtherDispatch(d: D.Config, m: Message, now: int, last: int)
    requires m.messageType !in {0, 3, 6} && m.messageType < 32
    ensures D.Dispatch(d, m.messageType, m.id, m.payload, now, last)
            == if m.messageType == 5 then D.Nothing
               else if m.messageType == 1 then D.ErrorForwarded(m.id, m.payload)
               else D.MessageForwarded(m.payload)
  {
    KindOfPlain(m.messageType);
  }

  /**
   * What is done with a message that is neither a record nor a key: an error report is passed on under its id, the type
   * of a fragment is ignored, and the text of any other is passed on as a message.
   */
  lemma OtherIsPassedOn(d: D.Config, s: D.State, m: Message, inputs: seq<Input>, i: nat, now: int, md5: Checksum)
    requires m.messageType !in {0, 3, 6} && m.messageType < 32 && Awaited(s, m, inputs, i, now, md5)
    ensures EffectOf(d, s, m, inputs, i, now, md5)
            == if !Completing(s, m, inputs, i, now, md5) || m.messageType == 5 then D.Nothing
               else if m.messageType == 1 then D.ErrorForwarded(m.id, m.payload)
               else D.MessageForwarded(m.payload)
  {
    PacketOfMessage(d, s, m, inputs, i, now, md5);
    OtherDispatch(d, m, now, ReceiveAll(d, s, inputs, md5).lastKeyExchange);
  }

  /** The clock of the receiving process does not go back. */
  predicate Ordered(inputs: seq<Input>) {
    forall i, j :: 0 <= i < j < |inputs| ==> inputs[i].now <= inputs[j].now
  }

  lemma {:induction false} LastReadIsLate(inputs: seq<Input>, effects: seq<D.Effect>, i: nat, earlier: int)
    requires Ordered(inputs) && i < |inputs| == |effects| && effects[i].KeyRead?
    ensures LastRead(inputs, effects, earlier) >= inputs[i].now
  {
    var last := |inputs| - 1;
    if i < last { LastReadIsLate(inputs[..last], effects[..last], i, earlier); }
  }

  /** Every key read was allowed by the key reads before it. */
  predicate AllowedAt(d: D.Config, inputs: seq<Input>, effects: seq<D.Effect>, j: nat, earlier: int)
    requires j < |inputs| == |effects|
  {
    effects[j].KeyRead? ==> MayRead(d, inputs[j].now, LastRead(inputs[..j], effects[..j], earlier))
  }

  lemma AllowedLast(d: D.Config, s: D.State, before: seq<Input>, input: Input, md5: Checksum)
    ensures var effects := Effects(d, s, before + [input], md5);
            effects[..|before|] == Effects(d, s, before, md5)
            && AllowedAt(d, before + [input], effects, |before|, s.lastKeyExchange)
  {
    assert (before + [input])[..|before|] == before;
    LastReadIsNoted(d, s, before, md5);
    ReadNotes(d, ReceiveAll(d, s, before, md5), input, md5);
  }

  lemma AllowedEarlier(d: D.Config, inputs: seq<Input>, effects: seq<D.Effect>, j: nat, n: nat, earlier: int)
    requires j < n <= |inputs| == |effects| && AllowedAt(d, inputs[..n], effects[..n], j, earlier)
    ensures AllowedAt(d, inputs, effects, j, earlier)
  {
    assert inputs[..n][..j] == inputs[..j] && effects[..n][..j] == effects[..j];
  }

  lemma {:induction false} AllAllowed(d: D.Config, s: D.State, inputs: seq<Input>, j: nat, md5: Checksum)
    requires j < |inputs|
    ensures AllowedAt(d, inputs, Effects(d, s, inputs, md5), j, s.lastKeyExchange)
  {
    var n := |inputs| - 1;
    assert inputs == inputs[..n] + [inputs[n]];
    AllowedLast(d, s, inputs[..n], inputs[n], md5);
    if j < n {
      AllAllowed(d, s, inputs[..n], j, md5);
      AllowedEarlier(d, inputs, Effects(d, s, inputs, md5), j, n, s.lastKeyExchange);
    }
  }

  lemma AllowedIsSpaced(d: D.Config, inputs: seq<Input>, effects: seq<D.Effect>, i: nat, j: nat, earlier: int)
    requires Ordered(inputs) && i < j < |inputs| == |effects| && AllowedAt(d, inputs, effects, j, earlier)
    requires effects[i].KeyRead? && effects[j].KeyRead? && d.keyExchangeMinInterval > 0
    ensures inputs[j].now - inputs[i].now >= d.keyExchangeMinInterval
  {
    LastReadIsLate(inputs[..j], effects[..j], i, earlier);
  }

  /** In every run, two keys are read at least the minimum interval apart. */
  lemma KeyReadsAreSpaced(d: D.Config, s: D.State, inputs: seq<Input>, i: nat, j: nat, md5: Checksum)
    requires Ordered(inputs) && i < j < |inputs| && d.keyExchangeMinInterval > 0
    requires Effects(d, s, inputs, md5)[i].KeyRead? && Effects(d, s, inputs, md5)[j].KeyRead?
    ensures inputs[j].now - inputs[i].now >= d.keyExchangeMinInterval
  {
    AllAllowed(d, s, inputs, j, md5);
    AllowedIsSpaced(d, inputs, Effects(d, s, inputs, md5), i, j, s.lastKeyExchange);
  }
}

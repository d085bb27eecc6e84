/** How often a record is written downstream, over any sequence of packets and cache cleanings. */
module TransferOnce {
  import opened Bytes
  import opened Formatter
  import opened MessageTypes
  import opened Parser
  import opened Network
  import opened Delivery
  import opened Completion
  import opened Transfer

  /** What the downstream side does at one input. */
  function EffectAt(d: D.Config, s: D.State, input: Input, md5: Checksum): D.Effect {
    match input
    case Wire(packet, now) => D.HandlePacket(d, s, packet, now, md5).1
    case CleanUp(_) => D.Nothing
  }

  predicate WritesUnder(e: D.Effect, key: Bytes) {
    e.Written? && e.key == key
  }

  /** The writes under a key, in the order in which the inputs cause them. */
  function Writes(d: D.Config, s: D.State, inputs: seq<Input>, md5: Checksum, key: Bytes): seq<D.Effect> {
    if inputs == [] then []
    else
      var before := inputs[..|inputs| - 1];
      var e := EffectAt(d, ReceiveAll(d, s, before, md5), inputs[|inputs| - 1], md5);
      Writes(d, s, before, md5, key) + if WritesUnder(e, key) then [e] else []
  }

  function Repeated(e: D.Effect, n: nat): seq<D.Effect> {
    if n == 0 then [] else Repeated(e, n - 1) + [e]
  }

  lemma DispatchKeepsKey(d: D.Config, t: byte, id: Bytes, payload: Bytes, now: int, last: int)
    ensures D.Dispatch(d, t, id, payload, now, last).Written? ==> D.Dispatch(d, t, id, payload, now, last).key == id
  {
  }

  lemma HandleKeepsId(c: CacheState, a: Arrival)
    ensures Handle(c, a).1.Delivered? ==> a.Packet? && Handle(c, a).1.id == a.p.id
  {
  }

  /** The effect of an input is that of its arrival at the cache. */
  lemma EffectOfArrival(d: D.Config, s: D.State, input: Input, md5: Checksum)
    ensures var e := EffectAt(d, s, input, md5);
            match Handle(s.cache, ArrivalOf(input, s.cache.maxNrMessages, md5)).1
            case Delivered(t, id, payload) => input.Wire? && e == D.Dispatch(d, t, id, payload, input.now, s.lastKeyExchange)
            case _ => !e.Written?
  {
    assert forall now :: D.Dispatch(d, TYPE_MULTIPART, [], [], now, s.lastKeyExchange) == D.Nothing;
  }

  /** One input writes under the id of x exactly when it completes x. */
  lemma InputWrites(d: D.Config, s: D.State, x: Sent, input: Input, got: set<uint16>, md5: Checksum)
    requires Acceptable(x, s.cache) && Collected(s.cache, x, got) && (!Multipart(x) ==> got == {})
    requires Undisturbed(s.cache, ArrivalOf(input, s.cache.maxNrMessages, md5), x)
    ensures var a, e := ArrivalOf(input, s.cache.maxNrMessages, md5), EffectAt(d, s, input, md5);
            if IsFor(a, x) && Whole(x, got + {a.p.number})
            then input.Wire? && e == D.Dispatch(d, x.m.messageType, x.m.id, x.m.payload, input.now, s.lastKeyExchange)
            else !WritesUnder(e, x.m.id)
  {
    var a := ArrivalOf(input, s.cache.maxNrMessages, md5);
    EffectOfArrival(d, s, input, md5);
    if IsFor(a, x) {
      OwnArrival(s.cache, x, a, got);
    } else {
      HandleKeepsId(s.cache, a);
      var out := Handle(s.cache, a).1;
      if out.Delivered? { DispatchKeepsKey(d, out.messageType, out.id, out.payload, input.now, s.lastKeyExchange); }
    }
  }

  /** The message is carried by every completion as this one write. */
  ghost predicate AlwaysWrites(d: D.Config, m: Message, write: D.Effect) {
    && WritesUnder(write, m.id)
    && forall now, last :: D.Dispatch(d, m.messageType, m.id, m.payload, now, last) == write
  }

  lemma RoundsSnoc(c: CacheState, arrivals: seq<Arrival>, a: Arrival, x: Sent)
    ensures Rounds(arrivals + [a], x) == RoundsWith(Rounds(arrivals, x).0, Rounds(arrivals, x).1, a, x)
    ensures AllUndisturbed(c, arrivals + [a], x) ==> AllUndisturbed(c, arrivals, x) && Undisturbed(After(c, arrivals), a, x)
  {
    assert (arrivals + [a])[..|arrivals|] == arrivals;
  }

  lemma WritesSnoc(d: D.Config, s: D.State, before: seq<Input>, input: Input, md5: Checksum, key: Bytes)
    ensures var e := EffectAt(d, ReceiveAll(d, s, before, md5), input, md5);
            Writes(d, s, before + [input], md5, key) == Writes(d, s, before, md5, key) + if WritesUnder(e, key) then [e] else []
    ensures var n := s.cache.maxNrMessages;
            Arrivals(before + [input], n, md5) == Arrivals(before, n, md5) + [ArrivalOf(input, n, md5)]
  {
    assert (before + [input])[..|before|] == before;
  }

  /** The write that one more input causes, if any. */
  lemma LastWrite(d: D.Config, s: D.State, x: Sent, before: seq<Input>, input: Input, md5: Checksum, write: D.Effect)
    requires Acceptable(x, s.cache) && x.m.id !in s.cache.entries && AlwaysWrites(d, x.m, write)
    requires var n := s.cache.maxNrMessages;
             AllUndisturbed(s.cache, Arrivals(before, n, md5), x)
             && Undisturbed(After(s.cache, Arrivals(before, n, md5)), ArrivalOf(input, n, md5), x)
    ensures var n := s.cache.maxNrMessages;
            var a, e := ArrivalOf(input, n, md5), EffectAt(d, ReceiveAll(d, s, before, md5), input, md5);
            if IsFor(a, x) && Whole(x, Rounds(Arrivals(before, n, md5), x).0 + {a.p.number}) then e == write
            else !WritesUnder(e, x.m.id)
  {
    var arrivals := Arrivals(before, s.cache.maxNrMessages, md5);
    ReceiveAllHandles(d, s, before, md5);
    CollectsInRounds(s.cache, x, arrivals);
    InputWrites(d, ReceiveAll(d, s, before, md5), x, input, Rounds(arrivals, x).0, md5);
  }

  /** One more effect behind n repetitions of a write: the write again, or something under another key. */
  lemma RepeatedStep(before: seq<D.Effect>, after: seq<D.Effect>, e: D.Effect, write: D.Effect, key: Bytes, n: nat, again: bool)
    requires before == Repeated(write, n) && after == before + if WritesUnder(e, key) then [e] else []
    requires if again then e == write && WritesUnder(write, key) else !WritesUnder(e, key)
    ensures after == Repeated(write, if again then n + 1 else n)
  {
  }

  /** One more input keeps writes and rounds in step. */
  lemma WritesStep(d: D.Config, s: D.State, x: Sent, before: seq<Input>, input: Input, md5: Checksum, write: D.Effect)
    requires Acceptable(x, s.cache) && x.m.id !in s.cache.entries && AlwaysWrites(d, x.m, write)
    requires AllUndisturbed(s.cache, Arrivals(before, s.cache.maxNrMessages, md5), x)
    requires Undisturbed(After(s.cache, Arrivals(before, s.cache.maxNrMessages, md5)), ArrivalOf(input, s.cache.maxNrMessages, md5), x)
    requires Writes(d, s, before, md5, x.m.id) == Repeated(write, Rounds(Arrivals(before, s.cache.maxNrMessages, md5), x).1)
    ensures Writes(d, s, before + [input], md5, x.m.id)
            == Repeated(write, Rounds(Arrivals(before + [input], s.cache.maxNrMessages, md5), x).1)
  {
    var n := s.cache.maxNrMessages;
    var arrivals, a := Arrivals(before, n, md5), ArrivalOf(input, n, md5);
    WritesSnoc(d, s, before, input, md5, x.m.id);
    RoundsSnoc(s.cache, arrivals, a, x);
    LastWrite(d, s, x, before, input, md5, write);
    var e, again := EffectAt(d, ReceiveAll(d, s, before, md5), input, md5), IsFor(a, x) && Whole(x, Rounds(arrivals, x).0 + {a.p.number});
    RepeatedStep(Writes(d, s, before, md5, x.m.id), Writes(d, s, before + [input], md5, x.m.id), e, write, x.m.id,
                 Rounds(arrivals, x).1, again);
  }

  lemma {:induction false} WritesInRounds(d: D.Config, s: D.State, x: Sent, inputs: seq<Input>, md5: Checksum, write: D.Effect)
    requires Acceptable(x, s.cache) && x.m.id !in s.cache.entries && AlwaysWrites(d, x.m, write)
    requires AllUndisturbed(s.cache, Arrivals(inputs, s.cache.maxNrMessages, md5), x)
    ensures Writes(d, s, inputs, md5, x.m.id)
            == Repeated(write, Rounds(Arrivals(inputs, s.cache.maxNrMessages, md5), x).1)
  {
    if inputs != [] {
      var n, before, input := s.cache.maxNrMessages, inputs[..|inputs| - 1], inputs[|inputs| - 1];
      assert inputs == before + [input];
      WritesSnoc(d, s, before, input, md5, x.m.id);
      RoundsSnoc(s.cache, Arrivals(before, n, md5), ArrivalOf(input, n, md5), x);
      WritesInRounds(d, s, x, before, md5, write);
      WritesStep(d, s, x, before, input, md5, write);
    }
  }

  /** The transport message of a record. */
  function MessageOf(u: U.Config, from: int, r: KafkaRecord): Message
    requires Handled(u, from, r).Sends?
  {
    var sent := Handled(u, from, r);
    Message(sent.messageType, sent.id, sent.wire, u.payloadSize)
  }

  /** A record that is sent and carried, at a downstream process that has seen nothing of it and spares it. */
  predicate Crosses(u: U.Config, d: D.Config, s: D.State, from: int, r: KafkaRecord, inputs: seq<Input>, md5: Checksum) {
    && FromKafka(r) && CodecsUndone(u, d, KeyFor(u, r), r.value, r.denied) && Handled(u, from, r).Sends?
    && var m := MessageOf(u, from, r);
       Carriable(m, s.cache.maxNrMessages) && Spared(s, m, Arrivals(inputs, s.cache.maxNrMessages, md5))
  }

  /**
   * A record across the diode, over any packets in any order and number, cleanings and noise: the writes under its
   * key are the one write it is to end in, as often as its packets became complete.
   */
  lemma RecordIsWrittenInRounds(u: U.Config, d: D.Config, s: D.State, from: int, r: KafkaRecord, inputs: seq<Input>, md5: Checksum)
    requires Crosses(u, d, s, from, r, inputs, md5)
    ensures PayloadFor(u, KeyFor(u, r), r.value, r.denied).Some?
    ensures var x := SendOf(MessageOf(u, from, r));
            Writes(d, s, inputs, md5, KeyFor(u, r))
            == Repeated(WriteFor(u, d, r), Rounds(Arrivals(inputs, s.cache.maxNrMessages, md5), x).1)
  {
    var m := MessageOf(u, from, r);
    HandledHasKey(u, from, r);
    CarriableIsCollectable(m, s.cache);
    DispatchWrites(u, d, from, r, 0, 0);
    forall now, last ensures D.Dispatch(d, m.messageType, m.id, m.payload, now, last) == WriteFor(u, d, r) {
      DispatchWrites(u, d, from, r, now, last);
    }
    WritesInRounds(d, s, SendOf(m), inputs, md5, WriteFor(u, d, r));
  }

  /** If all its packets arrive and one of them is not repeated, the record is written once, as it is to be. */
  lemma RecordIsWrittenOnce(u: U.Config, d: D.Config, s: D.State, from: int, r: KafkaRecord, inputs: seq<Input>, md5: Checksum, k: uint16)
    requires Crosses(u, d, s, from, r, inputs, md5)
    requires var x, arrivals := SendOf(MessageOf(u, from, r)), Arrivals(inputs, s.cache.maxNrMessages, md5);
             Arrived(x, arrivals) && 1 <= k <= |x.parts| && Copies(arrivals, x, k) == 1
    ensures PayloadFor(u, KeyFor(u, r), r.value, r.denied).Some?
    ensures Writes(d, s, inputs, md5, KeyFor(u, r)) == [WriteFor(u, d, r)]
  {
    RecordIsWrittenInRounds(u, d, s, from, r, inputs, md5);
    OnceIfNotRepeated(Arrivals(inputs, s.cache.maxNrMessages, md5), SendOf(MessageOf(u, from, r)), k);
    assert Repeated(WriteFor(u, d, r), 1) == Repeated(WriteFor(u, d, r), 0) + [WriteFor(u, d, r)];
  }
}

/** Which messages can cross the link at all, and how often several receivers write a record. */
module Crossing {
  import opened Bytes
  import opened Options
  import opened Text
  import opened Formatter
  import opened MessageTypes
  import opened Parser
  import opened Network
  import opened Delivery
  import opened Truncation
  import opened Deliverable
  import opened Completion
  import opened Transfer
  import opened TransferOnce

  // One receiver is a run of the network with one worker that finishes at once

  predicate PartsOnly(arrivals: seq<Arrival>, x: Sent) {
    forall k :: 0 <= k < |arrivals| && arrivals[k].Packet? ==> arrivals[k].p in x.parts
  }

  /** The state after handling the packet in one go. */
  lemma ReceiveAtOnce(s: Network.State, id: Bytes, i: nat, now: int)
    requires Enabled(s, Receive(0, id, i, now)) && s.busy == map[]
    requires s.sent[id].parts[i].id == id && s.sent[id].parts[i].count <= s.cache.maxNrMessages
    ensures var s1 := Next(s, Receive(0, id, i, now));
            (0 in s1.busy ==> Enabled(s1, Finish(0)))
            && var s2 := if 0 in s1.busy then Next(s1, Finish(0)) else s1;
               var (cache, out) := Handle(s.cache, Packet(s.sent[id].parts[i], now));
               s2.cache == cache && s2.busy == map[] && s2.sent == s.sent && (out.Delivered? ==> out in s2.delivered)
  {
  }

  /** The run of the network that does what the receiver does. */
  predicate Mirrored(es: seq<Event>, m: Message, c0: CacheState, c: CacheState)
    requires Sendable(m) && Valid(Init(c0.maxEntries, c0.maxNrMessages), es)
  {
    var s := Run(Init(c0.maxEntries, c0.maxNrMessages), es);
    OnlyMessage(es, m) && s.cache == c && s.busy == map[] && s.sent == map[m.id := SendOf(m)]
  }

  lemma OnlyMessageSnoc(es: seq<Event>, m: Message, e: Event)
    requires OnlyMessage(es, m) && !e.Send? && !e.SetLimits?
    ensures OnlyMessage(es + [e], m)
  {
  }

  /** A packet received, and finished if it completes the message. */
  lemma MirrorPacket(es: seq<Event>, m: Message, c0: CacheState, c: CacheState, i: nat, now: int) returns (es': seq<Event>)
    requires Sendable(m) && Valid(Init(c0.maxEntries, c0.maxNrMessages), es) && Mirrored(es, m, c0, c)
    requires i < |SendOf(m).parts| && SendOf(m).parts[i].id == m.id && SendOf(m).parts[i].count <= c.maxNrMessages
    ensures Valid(Init(c0.maxEntries, c0.maxNrMessages), es')
    ensures var (cache, out) := Handle(c, Packet(SendOf(m).parts[i], now));
            Mirrored(es', m, c0, cache)
            && (out.Delivered? ==> out in Run(Init(c0.maxEntries, c0.maxNrMessages), es').delivered)
  {
    var s0, e := Init(c0.maxEntries, c0.maxNrMessages), Receive(0, m.id, i, now);
    var s := Run(s0, es);
    ReceiveAtOnce(s, m.id, i, now);
    RunSnoc(s0, es, e);
    OnlyMessageSnoc(es, m, e);
    es' := es + [e];
    if 0 in Next(s, e).busy {
      RunSnoc(s0, es', Finish(0));
      OnlyMessageSnoc(es', m, Finish(0));
      es' := es' + [Finish(0)];
    }
  }

  lemma MirrorTick(es: seq<Event>, m: Message, c0: CacheState, c: CacheState, now: int) returns (es': seq<Event>)
    requires Sendable(m) && Valid(Init(c0.maxEntries, c0.maxNrMessages), es) && Mirrored(es, m, c0, c)
    ensures Valid(Init(c0.maxEntries, c0.maxNrMessages), es') && Mirrored(es', m, c0, Clean(c, now))
  {
    RunSnoc(Init(c0.maxEntries, c0.maxNrMessages), es, Event.CleanUp(now));
    es' := es + [Event.CleanUp(now)];
  }

  /** One more arrival is nothing, one event, or a packet received and finished. */
  lemma MirrorOne(es: seq<Event>, m: Message, c0: CacheState, c: CacheState, a: Arrival) returns (es': seq<Event>)
    requires Sendable(m) && Valid(Init(c0.maxEntries, c0.maxNrMessages), es) && Mirrored(es, m, c0, c)
    requires a.Packet? ==> a.p in SendOf(m).parts
    ensures Valid(Init(c0.maxEntries, c0.maxNrMessages), es') && Mirrored(es', m, c0, Handle(c, a).0)
    ensures Handle(c, a).1.Delivered? ==> Handle(c, a).1 in Run(Init(c0.maxEntries, c0.maxNrMessages), es').delivered
  {
    es' := es;
    if a.Tick? {
      es' := MirrorTick(es, m, c0, c, a.now);
    } else if a.Packet? && a.p.count <= c.maxNrMessages {
      SendOfShaped(m);
      var i :| 0 <= i < |SendOf(m).parts| && SendOf(m).parts[i] == a.p;
      assert SendOf(m).parts[i].id == SendOf(m).m.id == m.id;
      es' := MirrorPacket(es, m, c0, c, i, a.now);
    }
  }

  lemma {:induction false} Mirror(m: Message, c0: CacheState, arrivals: seq<Arrival>) returns (es: seq<Event>)
    requires Sendable(m) && c0.entries == map[] && PartsOnly(arrivals, SendOf(m))
    ensures Valid(Init(c0.maxEntries, c0.maxNrMessages), es) && Mirrored(es, m, c0, After(c0, arrivals))
  {
    var s0 := Init(c0.maxEntries, c0.maxNrMessages);
    if arrivals == [] {
      es := [] + [Event.Send(m)];
      RunSnoc(s0, [], Event.Send(m));
    } else {
      var n := |arrivals| - 1;
      es := Mirror(m, c0, arrivals[..n]);
      es := MirrorOne(es, m, c0, After(c0, arrivals[..n]), arrivals[n]);
    }
  }

  /** What comes out after only packets of m: m itself only if it can arrive, and nothing else if its count fits. */
  lemma OutputOfParts(m: Message, c0: CacheState, arrivals: seq<Arrival>, a: Arrival)
    requires Sendable(m) && c0.entries == map[] && PartsOnly(arrivals + [a], SendOf(m))
    ensures var out := Handle(After(c0, arrivals), a).1;
            && (out == Out(m) ==> CanArrive(m, c0.maxEntries, c0.maxNrMessages))
            && (out.Delivered? && Fits(m) ==> out == Out(m))
  {
    assert forall k :: 0 <= k < |arrivals| ==> (arrivals + [a])[k] == arrivals[k];
    assert (arrivals + [a])[|arrivals|] == a;
    var es := Mirror(m, c0, arrivals);
    es := MirrorOne(es, m, c0, After(c0, arrivals), a);
    var out := Handle(After(c0, arrivals), a).1;
    if out == Out(m) { OnlyThese(m, c0.maxEntries, c0.maxNrMessages, es); }
    if out.Delivered? && Fits(m) {
      OnlyMessageFits(es, m);
      DeliveredWasSent(c0.maxEntries, c0.maxNrMessages, es);
    }
  }

  // Packets of one message, at a receiver that holds no entry

  predicate OwnInputs(inputs: seq<Input>, m: Message, md5: Checksum)
    requires Sendable(m)
  {
    forall k :: 0 <= k < |inputs| && inputs[k].Wire? ==> OfMessage(inputs[k].packet, m, md5)
  }

  predicate OfMessage(packet: Bytes, m: Message, md5: Checksum)
    requires Sendable(m)
  {
    exists i :: 0 <= i < |SendOf(m).parts| && packet == Encode(SendOf(m).parts[i], md5)
  }

  /** A packet of a message is refused if its id looks like a rotation frame, or it declares too many parts. */
  lemma ArrivalOfPart(m: Message, i: nat, now: int, maxNrMessages: uint16, md5: Checksum)
    requires Sendable(m) && i < |SendOf(m).parts|
    ensures ArrivalOf(Wire(Encode(SendOf(m).parts[i], md5), now), maxNrMessages, md5)
            == if Framing.NamesRotation(m.id) || SendOf(m).parts[i].count > maxNrMessages then Noise
               else Packet(SendOf(m).parts[i], now)
  {
    SendOfShaped(m);
    var x := SendOf(m);
    assert x.parts[i].id == x.m.id == m.id;
    PacketDecodes(x, i, maxNrMessages, md5);
    RotationIffPrefix(x.parts[i], md5);
  }

  lemma OwnArrivalOf(input: Input, m: Message, maxNrMessages: uint16, md5: Checksum)
    requires Sendable(m) && (input.Wire? ==> OfMessage(input.packet, m, md5))
    ensures var a := ArrivalOf(input, maxNrMessages, md5);
            a.Packet? ==> a.p in SendOf(m).parts && !Framing.NamesRotation(m.id)
  {
    if input.Wire? {
      var i :| 0 <= i < |SendOf(m).parts| && input.packet == Encode(SendOf(m).parts[i], md5);
      ArrivalOfPart(m, i, input.now, maxNrMessages, md5);
    }
  }

  lemma {:induction false} OwnArrivals(inputs: seq<Input>, m: Message, maxNrMessages: uint16, md5: Checksum)
    requires Sendable(m) && OwnInputs(inputs, m, md5)
    ensures PartsOnly(Arrivals(inputs, maxNrMessages, md5), SendOf(m))
  {
    if inputs != [] {
      var n := |inputs| - 1;
      OwnArrivals(inputs[..n], m, maxNrMessages, md5);
      OwnArrivalOf(inputs[n], m, maxNrMessages, md5);
    }
  }

  /** What the last input brings out of the cache. */
  function LastOutput(d: D.Config, s: D.State, inputs: seq<Input>, md5: Checksum): Output
    requires inputs != []
  {
    var before := ReceiveAll(d, s, inputs[..|inputs| - 1], md5);
    Handle(before.cache, ArrivalOf(inputs[|inputs| - 1], s.cache.maxNrMessages, md5)).1
  }

  predicate Conveys(d: D.Config, s: D.State, inputs: seq<Input>, m: Message, md5: Checksum) {
    inputs != [] && LastOutput(d, s, inputs, md5) == Out(m)
  }

  /** Carriable, and the cache has room for an entry unless one packet suffices. */
  predicate CanCross(m: Message, c: CacheState) {
    Carriable(m, c.maxNrMessages) && (DeclaredCount(m) > 1 ==> c.maxEntries > 0)
  }

  lemma LastOutputOfParts(d: D.Config, s: D.State, inputs: seq<Input>, m: Message, md5: Checksum)
    requires Sendable(m) && s.cache.entries == map[] && inputs != [] && OwnInputs(inputs, m, md5)
    ensures var out := LastOutput(d, s, inputs, md5);
            && (out == Out(m) ==> CanCross(m, s.cache))
            && (out.Delivered? ==> !Framing.NamesRotation(m.id) && (Fits(m) ==> out == Out(m)))
  {
    var n, before, c0 := s.cache.maxNrMessages, inputs[..|inputs| - 1], s.cache;
    var a := ArrivalOf(inputs[|inputs| - 1], n, md5);
    ReceiveAllHandles(d, s, before, md5);
    OwnArrivals(before, m, n, md5);
    OwnArrivalOf(inputs[|inputs| - 1], m, n, md5);
    OutputOfParts(m, c0, Arrivals(before, n, md5), a);
    HandleKeepsId(After(c0, Arrivals(before, n, md5)), a);
    if LastOutput(d, s, inputs, md5) == Out(m) { CountedIsSent(m); }
  }

  // All packets in order

  function InOrder(x: Sent, n: nat): seq<Arrival>
    requires n <= |x.parts|
  {
    if n == 0 then [] else InOrder(x, n - 1) + [Packet(x.parts[n - 1], 0)]
  }

  function InOrderInputs(x: Sent, n: nat, md5: Checksum): seq<Input>
    requires n <= |x.parts|
  {
    if n == 0 then [] else InOrderInputs(x, n - 1, md5) + [Wire(Encode(x.parts[n - 1], md5), 0)]
  }

  lemma {:induction false} InOrderInputsAt(x: Sent, n: nat, md5: Checksum)
    requires n <= |x.parts|
    ensures |InOrderInputs(x, n, md5)| == n
    ensures forall k :: 0 <= k < n ==> InOrderInputs(x, n, md5)[k] == Wire(Encode(x.parts[k], md5), 0)
  {
    if n > 0 { InOrderInputsAt(x, n - 1, md5); }
  }

  /** Every packet is taken as its part. */
  predicate Taken(x: Sent, maxNrMessages: uint16, md5: Checksum) {
    forall i :: 0 <= i < |x.parts| ==> ArrivalOf(Wire(Encode(x.parts[i], md5), 0), maxNrMessages, md5) == Packet(x.parts[i], 0)
  }

  lemma {:induction false} ArrivalsAt(inputs: seq<Input>, k: nat, maxNrMessages: uint16, md5: Checksum)
    requires k < |inputs|
    ensures Arrivals(inputs, maxNrMessages, md5)[k] == ArrivalOf(inputs[k], maxNrMessages, md5)
  {
    if k < |inputs| - 1 { ArrivalsAt(inputs[..|inputs| - 1], k, maxNrMessages, md5); }
  }

  lemma {:induction false} InOrderAt(x: Sent, n: nat)
    requires n <= |x.parts|
    ensures |InOrder(x, n)| == n && forall k :: 0 <= k < n ==> InOrder(x, n)[k] == Packet(x.parts[k], 0)
  {
    if n > 0 { InOrderAt(x, n - 1); }
  }

  lemma TakenInOrder(x: Sent, n: nat, maxNrMessages: uint16, md5: Checksum)
    requires Taken(x, maxNrMessages, md5) && n <= |x.parts|
    ensures Arrivals(InOrderInputs(x, n, md5), maxNrMessages, md5) == InOrder(x, n)
  {
    InOrderInputsAt(x, n, md5);
    InOrderAt(x, n);
    forall k | 0 <= k < n
      ensures Arrivals(InOrderInputs(x, n, md5), maxNrMessages, md5)[k] == Packet(x.parts[k], 0)
    {
      ArrivalsAt(InOrderInputs(x, n, md5), k, maxNrMessages, md5);
    }
  }

  lemma InOrderArrivals(m: Message, n: nat, maxNrMessages: uint16, md5: Checksum)
    requires Carriable(m, maxNrMessages) && n <= |SendOf(m).parts|
    ensures OwnInputs(InOrderInputs(SendOf(m), n, md5), m, md5)
    ensures Arrivals(InOrderInputs(SendOf(m), n, md5), maxNrMessages, md5) == InOrder(SendOf(m), n)
  {
    var x := SendOf(m);
    InOrderInputsAt(x, n, md5);
    assert Taken(x, maxNrMessages, md5) by {
      SendOfShaped(m);
      forall i | 0 <= i < |x.parts|
        ensures ArrivalOf(Wire(Encode(x.parts[i], md5), 0), maxNrMessages, md5) == Packet(x.parts[i], 0)
      {
        ArrivalOfPart(m, i, 0, maxNrMessages, md5);
      }
    }
    TakenInOrder(x, n, maxNrMessages, md5);
  }

  lemma OnlyThisEntry(c: CacheState, a: Arrival, id: Bytes)
    requires a.Packet? && a.p.id == id && c.entries.Keys <= {id}
    ensures Handle(c, a).0.entries.Keys <= {id} && Handle(c, a).0.maxEntries == c.maxEntries
  {
  }

  lemma {:induction false} InOrderSnoc(x: Sent, n: nat)
    requires n < |x.parts|
    ensures |InOrder(x, n)| == n && InOrder(x, n + 1) == InOrder(x, n) + [Packet(x.parts[n], 0)]
    ensures InOrder(x, n + 1)[..n] == InOrder(x, n)
  {
    if n > 0 { InOrderSnoc(x, n - 1); }
  }

  lemma CopiesSnoc(arrivals: seq<Arrival>, a: Arrival, x: Sent, k: uint16)
    ensures Copies(arrivals + [a], x, k) == Copies(arrivals, x, k) + if IsFor(a, x) && a.p.number == k then 1 else 0
  {
    assert (arrivals + [a])[..|arrivals|] == arrivals;
  }

  lemma UndisturbedSnoc(c: CacheState, arrivals: seq<Arrival>, a: Arrival, x: Sent)
    requires a.Packet?
    ensures After(c, arrivals + [a]) == Handle(After(c, arrivals), a).0
    ensures AllUndisturbed(c, arrivals + [a], x) <==> AllUndisturbed(c, arrivals, x) && Undisturbed(After(c, arrivals), a, x)
  {
    assert (arrivals + [a])[..|arrivals|] == arrivals;
  }

  lemma PartNumber(x: Sent, i: nat)
    requires Registered(x) && i < |x.parts| < 0xFFFF
    ensures x.parts[i].number == i + 1 && x.parts[i].id == x.m.id
  {
    PartOf(x, i);
  }

  lemma {:induction false} InOrderCopies(x: Sent, n: nat, k: uint16)
    requires Registered(x) && n <= |x.parts| < 0xFFFF
    ensures Copies(InOrder(x, n), x, k) == if 1 <= k <= n then 1 else 0
  {
    if n > 0 {
      InOrderCopies(x, n - 1, k);
      InOrderSnoc(x, n - 1);
      PartNumber(x, n - 1);
      CopiesSnoc(InOrder(x, n - 1), Packet(x.parts[n - 1], 0), x, k);
    }
  }

  lemma RoomForPart(c: CacheState, x: Sent, i: nat)
    requires Registered(x) && i < |x.parts| && c.entries.Keys <= {x.m.id} && (Multipart(x) ==> c.maxEntries > 0)
    ensures Undisturbed(c, Packet(x.parts[i], 0), x) && x.parts[i].id == x.m.id
  {
    PartOf(x, i);
    assert x.m.id !in c.entries ==> c.entries.Keys == {};
    assert |c.entries| == |c.entries.Keys|;
  }

  /** The arrivals bring nothing but this message, which finds room. */
  predicate Calm(c: CacheState, x: Sent, arrivals: seq<Arrival>) {
    && AllUndisturbed(c, arrivals, x)
    && After(c, arrivals).entries.Keys <= {x.m.id} && After(c, arrivals).maxEntries == c.maxEntries
  }

  lemma {:induction false} InOrderIsUndisturbed(c: CacheState, x: Sent, n: nat)
    requires Registered(x) && c.entries == map[] && (Multipart(x) ==> c.maxEntries > 0) && n <= |x.parts|
    ensures Calm(c, x, InOrder(x, n))
  {
    if n == 0 {
      NothingIsCalm(c, x);
    } else {
      InOrderIsUndisturbed(c, x, n - 1);
      InOrderSnoc(x, n - 1);
      OneMoreUndisturbed(c, x, InOrder(x, n - 1), n - 1);
    }
  }

  lemma NothingIsCalm(c: CacheState, x: Sent)
    requires c.entries == map[]
    ensures Calm(c, x, [])
  {
  }

  lemma OneMoreUndisturbed(c: CacheState, x: Sent, arrivals: seq<Arrival>, i: nat)
    requires Registered(x) && i < |x.parts| && (Multipart(x) ==> c.maxEntries > 0) && Calm(c, x, arrivals)
    ensures Calm(c, x, arrivals + [Packet(x.parts[i], 0)])
  {
    UndisturbedSnoc(c, arrivals, Packet(x.parts[i], 0), x);
    RoomForPart(After(c, arrivals), x, i);
    OnlyThisEntry(After(c, arrivals), Packet(x.parts[i], 0), x.m.id);
  }

  /** The part that is missing after the arrivals brings the message out. */
  lemma MissingPartConveys(c: CacheState, x: Sent, before: seq<Arrival>, i: nat)
    requires Acceptable(x, c) && x.m.id !in c.entries && i < |x.parts| && AllUndisturbed(c, before, x)
    requires Undisturbed(After(c, before), Packet(x.parts[i], 0), x)
    requires Copies(before, x, x.parts[i].number) == 0 && 1 <= x.parts[i].number <= |x.parts|
    requires forall k: uint16 :: 1 <= k <= |x.parts| && k != x.parts[i].number ==> k in Got(before, x)
    ensures Handle(After(c, before), Packet(x.parts[i], 0)).1 == Out(x.m)
  {
    PartOf(x, i);
    RoundsAndCopies(before, x, x.parts[i].number);
    CollectsInRounds(c, x, before);
    OwnArrival(After(c, before), x, Packet(x.parts[i], 0), Rounds(before, x).0);
  }

  lemma InOrderGot(x: Sent, n: nat, k: uint16)
    requires Registered(x) && n <= |x.parts| < 0xFFFF && 1 <= k <= n
    ensures k in Got(InOrder(x, n), x)
  {
    InOrderCopies(x, n, k);
    RoundsAndCopies(InOrder(x, n), x, k);
  }

  /** All packets in order: the last one brings the message out. */
  lemma InOrderConveys(c: CacheState, x: Sent)
    requires Acceptable(x, c) && c.entries == map[] && (Multipart(x) ==> c.maxEntries > 0)
    ensures var n := |x.parts| - 1;
            Handle(After(c, InOrder(x, n)), Packet(x.parts[n], 0)).1 == Out(x.m)
  {
    var n := |x.parts| - 1;
    PartOf(x, n);
    InOrderIsUndisturbed(c, x, n);
    RoomForPart(After(c, InOrder(x, n)), x, n);
    InOrderCopies(x, n, x.parts[n].number);
    forall k: uint16 | 1 <= k <= |x.parts| && k != x.parts[n].number ensures k in Got(InOrder(x, n), x) { InOrderGot(x, n, k); }
    MissingPartConveys(c, x, InOrder(x, n), n);
  }

  // The theorems

  lemma InOrderCrosses(d: D.Config, s: D.State, m: Message, md5: Checksum) returns (inputs: seq<Input>)
    requires CanCross(m, s.cache) && s.cache.entries == map[]
    ensures OwnInputs(inputs, m, md5) && Conveys(d, s, inputs, m, md5)
    ensures inputs == InOrderInputs(SendOf(m), |SendOf(m).parts|, md5)
  {
    var x, c := SendOf(m), s.cache;
    CarriableIsCollectable(m, c);
    SendOfShaped(m);
    var n := |x.parts| - 1;
    inputs := InOrderInputs(x, n + 1, md5);
    InOrderArrivals(m, n + 1, c.maxNrMessages, md5);
    InOrderArrivals(m, n, c.maxNrMessages, md5);
    assert inputs[..|inputs| - 1] == InOrderInputs(x, n, md5);
    ReceiveAllHandles(d, s, InOrderInputs(x, n, md5), md5);
    ArrivalOfPart(m, n, 0, c.maxNrMessages, md5);
    InOrderConveys(c, x);
  }

  /** Some arrivals of its packets bring a message out downstream, unaltered, exactly if it can cross. */
  lemma MessageCrossesIff(d: D.Config, s: D.State, m: Message, md5: Checksum)
    requires Sendable(m) && s.cache.entries == map[]
    ensures (exists inputs :: OwnInputs(inputs, m, md5) && Conveys(d, s, inputs, m, md5)) <==> CanCross(m, s.cache)
  {
    if inputs :| OwnInputs(inputs, m, md5) && Conveys(d, s, inputs, m, md5) { LastOutputOfParts(d, s, inputs, m, md5); }
    if CanCross(m, s.cache) { var inputs := InOrderCrosses(d, s, m, md5); }
  }

  /** A message that cannot cross causes no write under its id, if its count fits uint16. */
  lemma {:induction false} NothingIsWritten(d: D.Config, s: D.State, m: Message, inputs: seq<Input>, md5: Checksum)
    requires Sendable(m) && Fits(m) && s.cache.entries == map[] && !CanCross(m, s.cache) && OwnInputs(inputs, m, md5)
    ensures Writes(d, s, inputs, md5, m.id) == []
  {
    if inputs != [] {
      var before, last := inputs[..|inputs| - 1], inputs[|inputs| - 1];
      NothingIsWritten(d, s, m, before, md5);
      LastOutputOfParts(d, s, inputs, m, md5);
      ReceiveAllHandles(d, s, before, md5);
      EffectOfArrival(d, ReceiveAll(d, s, before, md5), last, md5);
    }
  }

  // Ids that look like rotation frames

  /** No packet under such an id reaches the cache. */
  lemma RotationIdIsRefused(input: Input, maxNrMessages: uint16, md5: Checksum)
    ensures var a := ArrivalOf(input, maxNrMessages, md5);
            a.Packet? ==> !Framing.NamesRotation(a.p.id)
  {
  }

  /** Whatever arrives, from any state: nothing is ever written under such a key. */
  lemma {:induction false} RotationIdIsNeverWritten(d: D.Config, s: D.State, inputs: seq<Input>, md5: Checksum, key: Bytes)
    requires Framing.NamesRotation(key)
    ensures Writes(d, s, inputs, md5, key) == []
  {
    if inputs != [] {
      var before, last := inputs[..|inputs| - 1], inputs[|inputs| - 1];
      RotationIdIsNeverWritten(d, s, before, md5, key);
      InputWritesOtherKey(d, ReceiveAll(d, s, before, md5), last, md5, key);
    }
  }

  lemma InputWritesOtherKey(d: D.Config, s: D.State, input: Input, md5: Checksum, key: Bytes)
    requires Framing.NamesRotation(key)
    ensures !WritesUnder(EffectAt(d, s, input, md5), key)
  {
    var a := ArrivalOf(input, s.cache.maxNrMessages, md5);
    var out := Handle(s.cache, a).1;
    EffectOfArrival(d, s, input, md5);
    HandleKeepsId(s.cache, a);
    RotationIdIsRefused(input, s.cache.maxNrMessages, md5);
    if out.Delivered? { DispatchKeepsKey(d, out.messageType, out.id, out.payload, input.now, s.lastKeyExchange); }
  }

  /** An id begins like that of a rotation frame exactly if its topic does. */
  lemma RotationIdIff(topic: Bytes, partition: int, offset: int)
    ensures Framing.NamesRotation(Routing.RecordId(topic, partition, offset)) <==> Framing.NamesRotation(topic)
  {
    var id, n := Routing.RecordId(topic, partition, offset), Itoa(partition);
    Routing.JoinThree(topic, n, Itoa(offset));
    assert id == topic + ([UNDERSCORE] + (n + ([UNDERSCORE] + Itoa(offset))));
    assert id[..|topic|] == topic && id[|topic|] == UNDERSCORE && id[|topic| + 1] == n[0];
    assert n[0] == MINUS || IsDigit(n[0]);
  }

  /**
   * A record is sent under an id that downstream takes for that of a rotation frame exactly if the topic in its key
   * begins with PIN_TLS; such a record is never written, whatever arrives.
   */
  lemma RotationTopicIsLost(u: U.Config, d: D.Config, s: D.State, from: int, r: KafkaRecord, inputs: seq<Input>, md5: Checksum)
    requires FromKafka(r) && Handled(u, from, r).Sends?
    ensures Framing.NamesRotation(Handled(u, from, r).id) <==> Framing.NamesRotation(KeyTopic(u, r))
    ensures Framing.NamesRotation(KeyTopic(u, r)) ==> Writes(d, s, inputs, md5, KeyFor(u, r)) == []
  {
    HandledHasKey(u, from, r);
    RotationIdIff(KeyTopic(u, r), if UNDERSCORE in r.topic then r.partition else r.partition + u.partitionStartValue, r.offset);
    if Framing.NamesRotation(KeyTopic(u, r)) { RotationIdIsNeverWritten(d, s, inputs, md5, KeyFor(u, r)); }
  }

  // Counts that do not fit uint16

  /** A packet of m under a truncated count brings out, if anything, less than m. */
  lemma TruncatedOutput(m: Message, c0: CacheState, arrivals: seq<Arrival>, a: Arrival)
    requires Sendable(m) && !Fits(m) && c0.entries == map[] && PartsOnly(arrivals + [a], SendOf(m))
    ensures var out := Handle(After(c0, arrivals), a).1;
            out.Delivered? ==> out.messageType == m.messageType && |out.payload| < |m.payload|
  {
    assert forall k :: 0 <= k < |arrivals| ==> (arrivals + [a])[k] == arrivals[k];
    assert (arrivals + [a])[|arrivals|] == a;
    var s0 := Init(c0.maxEntries, c0.maxNrMessages);
    var es := Mirror(m, c0, arrivals);
    es := MirrorOne(es, m, c0, After(c0, arrivals), a);
    var out := Handle(After(c0, arrivals), a).1;
    if DeclaredCount(m) == 0xFFFF {
      RunHarmless(s0, es, m, c0.maxNrMessages);
    } else {
      RunThin(s0, es, m);
    }
    if out.Delivered? {
      HandleKeepsType(After(c0, arrivals), a);
      SendOfShaped(m);
      var i :| 0 <= i < |SendOf(m).parts| && SendOf(m).parts[i] == a.p;
      assert SendOf(m).parts[i].messageType == m.messageType;
      assert ThinOutput(out, |m.payload|);
    }
  }

  lemma HandleKeepsType(c: CacheState, a: Arrival)
    ensures Handle(c, a).1.Delivered? ==> a.Packet? && Handle(c, a).1.messageType == a.p.messageType
  {
  }

  /** Nothing shorter than the wire payload is recovered as this payload. */
  ghost predicate OnlyWhole(d: D.Config, m: Message, payload: Bytes) {
    forall wire: Bytes :: |wire| < |m.payload| && (KindOf(m.messageType).Cleartext? || KindOf(m.messageType).Encrypted?)
                          ==> D.Recover(d, KindOf(m.messageType), wire) != Some(payload)
  }

  /** An input that brings out less than m does not end in this write. */
  lemma ShorterIsNotWritten(d: D.Config, s: D.State, m: Message, input: Input, md5: Checksum, write: D.Effect)
    requires write.Written? && OnlyWhole(d, m, write.payload)
    requires var out := Handle(s.cache, ArrivalOf(input, s.cache.maxNrMessages, md5)).1;
             out.Delivered? ==> out.messageType == m.messageType && |out.payload| < |m.payload|
    ensures EffectAt(d, s, input, md5) != write
  {
    EffectOfArrival(d, s, input, md5);
    var out := Handle(s.cache, ArrivalOf(input, s.cache.maxNrMessages, md5)).1;
    if out.Delivered? { WrittenIsRecovered(d, out, input.now, s.lastKeyExchange); }
  }

  lemma WrittenIsRecovered(d: D.Config, out: Output, now: int, last: int)
    requires out.Delivered?
    ensures var e := D.Dispatch(d, out.messageType, out.id, out.payload, now, last);
            e.Written? ==>
              (KindOf(out.messageType).Cleartext? || KindOf(out.messageType).Encrypted?)
              && D.Recover(d, KindOf(out.messageType), out.payload) == Some(e.payload)
  {
  }

  lemma TruncatedOutputOf(d: D.Config, s: D.State, m: Message, before: seq<Input>, last: Input, md5: Checksum)
    requires Sendable(m) && !Fits(m) && s.cache.entries == map[] && OwnInputs(before + [last], m, md5)
    ensures var s' := ReceiveAll(d, s, before, md5);
            var out := Handle(s'.cache, ArrivalOf(last, s'.cache.maxNrMessages, md5)).1;
            out.Delivered? ==> out.messageType == m.messageType && |out.payload| < |m.payload|
  {
    var n := s.cache.maxNrMessages;
    OwnArrivals(before + [last], m, n, md5);
    ReceiveAllHandles(d, s, before, md5);
    assert (before + [last])[..|before|] == before;
    assert Arrivals(before + [last], n, md5) == Arrivals(before, n, md5) + [ArrivalOf(last, n, md5)];
    TruncatedOutput(m, s.cache, Arrivals(before, n, md5), ArrivalOf(last, n, md5));
  }

  lemma {:induction false} TruncatedIsNotWritten(d: D.Config, s: D.State, m: Message, inputs: seq<Input>, md5: Checksum, write: D.Effect)
    requires Sendable(m) && !Fits(m) && s.cache.entries == map[] && OwnInputs(inputs, m, md5)
    requires write.Written? && OnlyWhole(d, m, write.payload)
    ensures write !in Writes(d, s, inputs, md5, m.id)
  {
    if inputs != [] {
      var before, last := inputs[..|inputs| - 1], inputs[|inputs| - 1];
      TruncatedIsNotWritten(d, s, m, before, md5, write);
      assert inputs == before + [last];
      TruncatedOutputOf(d, s, m, before, last, md5);
      ShorterIsNotWritten(d, ReceiveAll(d, s, before, md5), m, last, md5, write);
    }
  }

  // Records

  /** All parts in order, each of them once. */
  lemma InOrderIsWhole(x: Sent)
    requires Registered(x) && |x.parts| < 0xFFFF
    ensures Whole(x, Got(InOrder(x, |x.parts|), x)) && Copies(InOrder(x, |x.parts|), x, 1) == 1
  {
    forall k: uint16 | 1 <= k <= |x.parts| ensures k in Got(InOrder(x, |x.parts|), x) { InOrderGot(x, |x.parts|, k); }
    InOrderCopies(x, |x.parts|, 1);
  }

  /** Arrivals that the cache takes as all parts of x, the first of them once. */
  predicate Complete(arrivals: seq<Arrival>, x: Sent, c: CacheState) {
    AllUndisturbed(c, arrivals, x) && Arrived(x, arrivals) && Copies(arrivals, x, 1) == 1
  }

  lemma InOrderIsComplete(x: Sent, c: CacheState)
    requires Registered(x) && |x.parts| < 0xFFFF && c.entries == map[] && (Multipart(x) ==> c.maxEntries > 0)
    ensures Complete(InOrder(x, |x.parts|), x, c)
  {
    InOrderIsUndisturbed(c, x, |x.parts|);
    InOrderIsWhole(x);
  }

  lemma CompleteWrites(u: U.Config, d: D.Config, s: D.State, from: int, r: KafkaRecord, inputs: seq<Input>, md5: Checksum)
    requires FromKafka(r) && CodecsUndone(u, d, KeyFor(u, r), r.value, r.denied) && Handled(u, from, r).Sends?
    requires s.cache.entries == map[] && CanCross(MessageOf(u, from, r), s.cache)
    requires Complete(Arrivals(inputs, s.cache.maxNrMessages, md5), SendOf(MessageOf(u, from, r)), s.cache)
    ensures PayloadFor(u, KeyFor(u, r), r.value, r.denied).Some?
    ensures Writes(d, s, inputs, md5, KeyFor(u, r)) == [WriteFor(u, d, r)]
  {
    CarriableIsCollectable(MessageOf(u, from, r), s.cache);
    RecordIsWrittenOnce(u, d, s, from, r, inputs, md5, 1);
  }

  /** The expected write is recovered from the whole wire payload only, or the count of parts fits uint16. */
  ghost predicate Distinct(u: U.Config, d: D.Config, from: int, r: KafkaRecord)
    requires Handled(u, from, r).Sends? && Sendable(MessageOf(u, from, r))
  {
    Fits(MessageOf(u, from, r))
    || (PayloadFor(u, KeyFor(u, r), r.value, r.denied).Some?
        && OnlyWhole(d, MessageOf(u, from, r), PayloadFor(u, KeyFor(u, r), r.value, r.denied).value))
  }

  /** What is sent neither encrypted nor compressed needs no more. */
  lemma CleartextIsDistinct(u: U.Config, d: D.Config, from: int, r: KafkaRecord)
    requires FromKafka(r) && CodecsUndone(u, d, KeyFor(u, r), r.value, r.denied) && Handled(u, from, r).Sends?
    requires Sendable(MessageOf(u, from, r)) && KindOf(Handled(u, from, r).messageType) == Cleartext(false)
    ensures Distinct(u, d, from, r)
  {
    HandledHasKey(u, from, r);
    RecordIsRecovered(u, d, from, Routing.RecordId(r.topic, r.partition, r.offset), r.time, r.value, r.denied);
  }

  /** A record whose message cannot cross is not written as expected, and not at all if its count fits uint16. */
  lemma NotWritten(u: U.Config, d: D.Config, s: D.State, from: int, r: KafkaRecord, inputs: seq<Input>, md5: Checksum)
    requires FromKafka(r) && CodecsUndone(u, d, KeyFor(u, r), r.value, r.denied) && Handled(u, from, r).Sends?
    requires s.cache.entries == map[] && Sendable(MessageOf(u, from, r)) && Distinct(u, d, from, r)
    requires !CanCross(MessageOf(u, from, r), s.cache) && OwnInputs(inputs, MessageOf(u, from, r), md5)
    ensures PayloadFor(u, KeyFor(u, r), r.value, r.denied).Some?
    ensures WriteFor(u, d, r) !in Writes(d, s, inputs, md5, KeyFor(u, r))
    ensures Fits(MessageOf(u, from, r)) ==> Writes(d, s, inputs, md5, KeyFor(u, r)) == []
  {
    var m := MessageOf(u, from, r);
    HandledHasKey(u, from, r);
    DispatchWrites(u, d, from, r, 0, 0);
    if Fits(m) {
      NothingIsWritten(d, s, m, inputs, md5);
    } else {
      TruncatedIsNotWritten(d, s, m, inputs, md5, WriteFor(u, d, r));
    }
  }

  lemma SomeWrites(u: U.Config, d: D.Config, s: D.State, from: int, r: KafkaRecord, md5: Checksum) returns (inputs: seq<Input>)
    requires FromKafka(r) && CodecsUndone(u, d, KeyFor(u, r), r.value, r.denied) && Handled(u, from, r).Sends?
    requires s.cache.entries == map[] && CanCross(MessageOf(u, from, r), s.cache)
    ensures PayloadFor(u, KeyFor(u, r), r.value, r.denied).Some?
    ensures OwnInputs(inputs, MessageOf(u, from, r), md5) && Writes(d, s, inputs, md5, KeyFor(u, r)) == [WriteFor(u, d, r)]
  {
    var m := MessageOf(u, from, r);
    inputs := InOrderCrosses(d, s, m, md5);
    CarriableIsCollectable(m, s.cache);
    SendOfShaped(m);
    InOrderArrivals(m, |SendOf(m).parts|, s.cache.maxNrMessages, md5);
    InOrderIsComplete(SendOf(m), s.cache);
    CompleteWrites(u, d, s, from, r, inputs, md5);
  }

  /** Some arrivals of its packets end in the write that is expected of a record exactly if its message can cross. */
  lemma RecordCrossesIff(u: U.Config, d: D.Config, s: D.State, from: int, r: KafkaRecord, md5: Checksum)
    requires FromKafka(r) && CodecsUndone(u, d, KeyFor(u, r), r.value, r.denied) && Handled(u, from, r).Sends?
    requires s.cache.entries == map[] && Sendable(MessageOf(u, from, r)) && Distinct(u, d, from, r)
    ensures PayloadFor(u, KeyFor(u, r), r.value, r.denied).Some?
    ensures (exists inputs :: OwnInputs(inputs, MessageOf(u, from, r), md5)
                              && WriteFor(u, d, r) in Writes(d, s, inputs, md5, KeyFor(u, r)))
            <==> CanCross(MessageOf(u, from, r), s.cache)
  {
    var m := MessageOf(u, from, r);
    HandledHasKey(u, from, r);
    DispatchWrites(u, d, from, r, 0, 0);
    if CanCross(m, s.cache) {
      var inputs := SomeWrites(u, d, s, from, r, md5);
    } else {
      forall inputs | OwnInputs(inputs, m, md5) ensures WriteFor(u, d, r) !in Writes(d, s, inputs, md5, KeyFor(u, r)) {
        NotWritten(u, d, s, from, r, inputs, md5);
      }
    }
  }

  // Several receivers

  /** What the switch does with an output of the cache. */
  function EffectOfOutput(d: D.Config, out: Output, now: int, last: int): D.Effect
    requires out.Delivered?
  {
    D.Dispatch(d, out.messageType, out.id, out.payload, now, last)
  }

  /**
   * In every run of n receivers on one cache: whatever is written under a record's key is the write expected, and
   * a record of several packets is written at most n times for each arrival of any of them.
   */
  lemma ReceiversBoundWrites(u: U.Config, d: D.Config, from: int, r: KafkaRecord,
                             maxEntries: int, maxNrMessages: uint16, es: seq<Event>, workers: set<nat>)
    requires FromKafka(r) && CodecsUndone(u, d, KeyFor(u, r), r.value, r.denied) && Handled(u, from, r).Sends?
    requires Valid(Init(maxEntries, maxNrMessages), es) && SendsFit(es) && WorkersIn(es, workers)
    requires var s, m := Run(Init(maxEntries, maxNrMessages), es), MessageOf(u, from, r);
             m.id in s.sent && s.sent[m.id].m == m && Multipart(s.sent[m.id])
    ensures PayloadFor(u, KeyFor(u, r), r.value, r.denied).Some?
    ensures var s, m := Run(Init(maxEntries, maxNrMessages), es), MessageOf(u, from, r);
            && (forall out, now, last :: out in s.delivered && out.Delivered? && WritesUnder(EffectOfOutput(d, out, now, last), KeyFor(u, r))
                                         ==> out == Out(m) && EffectOfOutput(d, out, now, last) == WriteFor(u, d, r))
            && forall k: uint16 :: 1 <= k <= |s.sent[m.id].parts| ==> s.delivered[Out(m)] <= |workers| * s.arrivals[(m.id, k)]
  {
    var s, m := Run(Init(maxEntries, maxNrMessages), es), MessageOf(u, from, r);
    HandledHasKey(u, from, r);
    DispatchWrites(u, d, from, r, 0, 0);
    DeliveredWasSent(maxEntries, maxNrMessages, es);
    WorkersBoundDeliveries(maxEntries, maxNrMessages, es, workers);
    forall out, now, last | out in s.delivered && out.Delivered? && WritesUnder(EffectOfOutput(d, out, now, last), KeyFor(u, r))
      ensures out == Out(m) && EffectOfOutput(d, out, now, last) == WriteFor(u, d, r)
    {
      DispatchKeepsKey(d, out.messageType, out.id, out.payload, now, last);
      DispatchWrites(u, d, from, r, now, last);
    }
  }
}

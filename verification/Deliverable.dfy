/** Which messages can be delivered at all. */
module Deliverable {
  import opened Bytes
  import opened Formatter
  import opened Splitting
  import opened Parser
  import opened Network
  import opened Delivery
  import opened Truncation

  /** The packets declare their true number, the receiver allows it, and the cache can hold and assemble them. */
  predicate CanArrive(m: Message, maxEntries: int, maxNrMessages: uint16)
    requires Sendable(m)
  {
    && CountsExactly(m.id, |m.payload|, m.mtu) && DeclaredCount(m) <= maxNrMessages && DeclaredCount(m) < 0xFFFF
    && (DeclaredCount(m) > 1 ==> maxEntries > 0)
  }

  // No run delivers any other

  /** A cache without room: packets of a message in several parts are refused. */
  predicate Starved(s: State, m: Message)
    requires Sendable(m)
  {
    && s.cache.maxEntries <= 0 && s.cache.entries == map[] && s.busy == map[] && s.delivered == multiset{}
    && forall id :: id in s.sent ==> s.sent[id] == SendOf(m)
  }

  lemma NextStarved(s: State, e: Event, m: Message)
    requires Sendable(m) && DeclaredCount(m) > 1 && Starved(s, m) && Enabled(s, e) && (e.Send? ==> e.m == m) && !e.SetLimits?
    ensures Starved(Next(s, e), m)
  {
    SendOfShaped(m);
    if e.Receive? {
      var p := s.sent[e.id].parts[e.index];
      assert p.count == SendOf(m).parts[0].count == DeclaredCount(m);
    }
  }

  lemma {:induction false} RunStarved(s: State, es: seq<Event>, m: Message)
    requires Sendable(m) && DeclaredCount(m) > 1 && Starved(s, m) && Valid(s, es) && OnlyMessage(es, m)
    ensures Starved(Run(s, es), m)
    decreases |es|
  {
    if es != [] {
      NextStarved(s, es[0], m);
      RunStarved(Next(s, es[0]), es[1..], m);
    }
  }

  predicate ThinEntry(e: Entry, count: uint16, chunk: int) {
    e.len == count && forall k :: k in e.val ==> |e.val[k]| <= chunk
  }

  predicate ThinOutput(out: Output, length: nat) {
    out.Delivered? ==> |out.payload| < length
  }

  /** A message with a truncated count: everything assembled from its packets is shorter than it is. */
  predicate Thin(s: State, m: Message)
    requires Sendable(m)
  {
    && (forall id :: id in s.sent ==> s.sent[id] == SendOf(m))
    && (forall id :: id in s.cache.entries ==> ThinEntry(s.cache.entries[id], DeclaredCount(m), Chunk(m.mtu, m.id)))
    && (forall w :: w in s.busy ==> ThinOutput(s.busy[w], |m.payload|))
    && (forall out :: out in s.delivered ==> ThinOutput(out, |m.payload|))
  }

  lemma {:induction false} JoinedIsShort(val: map<uint16, Bytes>, i: nat, n: uint16, chunk: nat)
    requires forall k: uint16 :: i <= k <= n ==> k in val && |val[k]| <= chunk
    requires i <= n + 1
    ensures |JoinParts(val, i, n)| <= (n + 1 - i) * chunk
    decreases n + 1 - i
  {
    if i <= n {
      JoinedIsShort(val, i + 1, n, chunk);
      assert (n + 1 - i) * chunk == (n - i) * chunk + chunk;
    }
  }

  lemma AssembledIsShort(e: Entry, m: Message)
    requires Sendable(m) && !Fits(m) && DeclaredCount(m) != 0xFFFF && ThinEntry(e, DeclaredCount(m), Chunk(m.mtu, m.id)) && IsComplete(e)
    ensures Assemble(e).Some? ==> |Assemble(e).value| < |m.payload|
  {
    TruncatedIsShort(m);
    if Assemble(e).Some? { JoinedIsShort(e.val, 1, e.len, Chunk(m.mtu, m.id)); }
  }

  lemma ThinPart(m: Message, i: nat)
    requires Sendable(m) && !Fits(m) && i < |SendOf(m).parts|
    ensures SendOf(m).parts[i].count == DeclaredCount(m) && |SendOf(m).parts[i].payload| <= Chunk(m.mtu, m.id)
  {
    SplitShape(m.messageType, m.id, m.payload, m.mtu);
  }

  lemma AcceptThin(s: State, m: Message, w: nat, p: Part, now: int)
    requires Sendable(m) && !Fits(m) && DeclaredCount(m) != 0xFFFF && Thin(s, m)
    requires p.count == DeclaredCount(m) && |p.payload| <= Chunk(m.mtu, m.id)
    ensures Thin(Accept(s, w, p, now), m)
  {
    TruncatedIsShort(m);
    var e := EntryWith(s.cache, p, now);
    if p.count > 1 && e.Some? {
      ThinStays(s.cache, p, now, DeclaredCount(m), Chunk(m.mtu, m.id));
      if IsComplete(e.value) { AssembledIsShort(e.value, m); }
    }
  }

  lemma ThinStays(c: CacheState, p: Part, now: int, count: uint16, chunk: int)
    requires p.id in c.entries ==> ThinEntry(c.entries[p.id], count, chunk)
    requires p.count == count && |p.payload| <= chunk && EntryWith(c, p, now).Some?
    ensures ThinEntry(EntryWith(c, p, now).value, count, chunk)
  {
  }

  lemma NextThin(s: State, e: Event, m: Message)
    requires Sendable(m) && !Fits(m) && DeclaredCount(m) != 0xFFFF && Thin(s, m)
    requires Enabled(s, e) && (e.Send? ==> e.m == m)
    ensures Thin(Next(s, e), m)
  {
    if e.Receive? {
      var p := s.sent[e.id].parts[e.index];
      ThinPart(m, e.index);
      AcceptThin(s.(arrivals := s.arrivals + multiset{(e.id, p.number)}), m, e.worker, p, e.now);
    }
  }

  lemma {:induction false} RunThin(s: State, es: seq<Event>, m: Message)
    requires Sendable(m) && !Fits(m) && DeclaredCount(m) != 0xFFFF && Thin(s, m) && Valid(s, es) && OnlyMessage(es, m)
    ensures Thin(Run(s, es), m)
    decreases |es|
  {
    if es != [] {
      NextThin(s, es[0], m);
      RunThin(Next(s, es[0]), es[1..], m);
    }
  }

  lemma ThinIsNotWhole(s: State, m: Message)
    requires Sendable(m) && Thin(s, m)
    ensures Out(m) !in s.delivered
  {
    assert !ThinOutput(Out(m), |m.payload|);
  }

  lemma OnlyThese(m: Message, maxEntries: int, maxNrMessages: uint16, es: seq<Event>)
    requires Sendable(m) && Valid(Init(maxEntries, maxNrMessages), es) && OnlyMessage(es, m)
    requires Out(m) in Run(Init(maxEntries, maxNrMessages), es).delivered
    ensures CanArrive(m, maxEntries, maxNrMessages)
  {
    var s0 := Init(maxEntries, maxNrMessages);
    if DeclaredCount(m) > maxNrMessages || DeclaredCount(m) == 0xFFFF {
      RunHarmless(s0, es, m, maxNrMessages);
    } else if DeclaredCount(m) > 1 && maxEntries <= 0 {
      RunStarved(s0, es, m);
    } else if !Fits(m) {
      RunThin(s0, es, m);
      ThinIsNotWhole(Run(s0, es), m);
    } else {
      OnlyMessageFits(es, m);
      DeliveredWasSent(maxEntries, maxNrMessages, es);
      SentIsM(s0, es, m);
    }
  }

  // Some run delivers these

  lemma CountedIsSent(m: Message)
    requires Sendable(m) && CountsExactly(m.id, |m.payload|, m.mtu)
    ensures Fits(m) && Shaped(SendOf(m)) && SendOf(m).parts[0].count == |SendOf(m).parts| == DeclaredCount(m)
    ensures PrefixOut(SendOf(m)) == Out(m)
  {
    SendOfShaped(m);
    FittingIsCountedClosely(m);
    var parts := SendOf(m).parts;
    assert parts[..parts[0].count] == parts;
  }

  lemma ArrivesInParts(m: Message, maxEntries: int, maxNrMessages: uint16) returns (es: seq<Event>)
    requires Sendable(m) && CanArrive(m, maxEntries, maxNrMessages) && DeclaredCount(m) > 1
    ensures Valid(Init(maxEntries, maxNrMessages), es) && OnlyMessage(es, m)
    ensures Out(m) in Run(Init(maxEntries, maxNrMessages), es).delivered
  {
    var s0 := Init(maxEntries, maxNrMessages);
    CountedIsSent(m);
    NextSent(s0, Send(m));
    var tail := PrefixDelivers(Next(s0, Send(m)), SendOf(m));
    es := [Send(m)] + tail;
    RunCons(s0, Send(m), tail);
  }

  lemma ArrivesAtOnce(m: Message, maxEntries: int, maxNrMessages: uint16) returns (es: seq<Event>)
    requires Sendable(m) && CanArrive(m, maxEntries, maxNrMessages) && DeclaredCount(m) <= 1
    ensures Valid(Init(maxEntries, maxNrMessages), es) && OnlyMessage(es, m)
    ensures Out(m) in Run(Init(maxEntries, maxNrMessages), es).delivered
  {
    var s0, x := Init(maxEntries, maxNrMessages), SendOf(m);
    CountedIsSent(m);
    SinglePart(x);
    NextSent(s0, Send(m));
    var s1, e := Next(s0, Send(m)), Receive(0, m.id, 0, 0);
    es := [Send(m)] + ([e] + []);
    FragmentDelivers(s1, x);
    RunCons(s1, e, []);
    RunCons(s0, Send(m), [e] + []);
  }

  /**
   * Some run delivers a message exactly if its packets declare their true number, which is below 65535 and allowed
   * by the receiver, and the cache has room for an entry unless the message fits one packet.
   */
  lemma DeliverableIff(m: Message, maxEntries: int, maxNrMessages: uint16)
    requires Sendable(m)
    ensures (exists es :: Valid(Init(maxEntries, maxNrMessages), es) && OnlyMessage(es, m)
                          && Out(m) in Run(Init(maxEntries, maxNrMessages), es).delivered)
            <==> CanArrive(m, maxEntries, maxNrMessages)
  {
    if es :| Valid(Init(maxEntries, maxNrMessages), es) && OnlyMessage(es, m)
             && Out(m) in Run(Init(maxEntries, maxNrMessages), es).delivered {
      OnlyThese(m, maxEntries, maxNrMessages, es);
    }
    if CanArrive(m, maxEntries, maxNrMessages) {
      var es;
      if DeclaredCount(m) > 1 { es := ArrivesInParts(m, maxEntries, maxNrMessages); }
      else { es := ArrivesAtOnce(m, maxEntries, maxNrMessages); }
    }
  }
}

/**
 * Fragments on a network that drops, duplicates, reorders and interleaves them, and several receiving
 * workers that share one MessageCache. A worker that completes a message removes its entry in a second
 * critical section (src/protocol/parser.go:133-149), so other steps may fall in between.
 */
module Network {
  import opened Bytes
  import opened Options
  import opened Formatter
  import opened Splitting
  import opened Parser

  datatype Message = Message(messageType: byte, id: Bytes, payload: Bytes, mtu: uint16)

  /** A message FormatMessage can format and whose packets fit the uint16 length of ParseMessage. */
  predicate Sendable(m: Message) {
    HasRoom(m.id, m.payload, m.mtu) && HEADER + |m.id| < 0x1_0000
  }

  /** NrMessages does not overflow uint16: the condition under which it logs no error. */
  predicate Fits(m: Message)
    requires Sendable(m)
  {
    m.payload == [] || 1 + |m.payload| / Chunk(m.mtu, m.id) < 0x1_0000
  }

  /** A message together with the parts FormatMessage makes of it. */
  datatype Sent = Sent(m: Message, parts: seq<Part>)

  function SendOf(m: Message): Sent
    requires Sendable(m)
  {
    RoomIff(m.messageType, m.id, m.payload, m.mtu);
    Sent(m, SplitMessage(m.messageType, m.id, m.payload, m.mtu).parts)
  }

  function Out(m: Message): Output {
    Delivered(m.messageType, m.id, m.payload)
  }

  /** Every part repeats one header and is numbered by its place, from 1 in uint16. */
  predicate Headed(x: Sent) {
    forall i :: 0 <= i < |x.parts| ==>
      x.parts[i] == Part(x.m.messageType, Uint16(i + 1), x.parts[0].count, x.m.id, x.parts[i].payload)
  }

  /** Headed parts whose payloads make up the message, in packets ParseMessage can read. */
  predicate Shaped(x: Sent) {
    && Headed(x) && |x.parts| > 0 && Flatten(Payloads(x.parts)) == x.m.payload
    && forall i :: 0 <= i < |x.parts| ==> HEADER + |x.m.id| + |x.parts[i].payload| < 0x1_0000
  }

  /** The headers declare the packets there are, or one more. */
  predicate CountedClosely(x: Sent)
    requires |x.parts| > 0
  {
    |x.parts| <= x.parts[0].count <= |x.parts| + 1
  }

  lemma SendOfShaped(m: Message)
    requires Sendable(m)
    ensures Shaped(SendOf(m)) && |SendOf(m).parts| == Emitted(m.id, |m.payload|, m.mtu)
    ensures SendOf(m).parts[0].count == Declared(m.id, |m.payload|, m.mtu)
  {
    SplitShape(m.messageType, m.id, m.payload, m.mtu);
    if m.payload == [] {
      assert SendOf(m).parts == [Part(m.messageType, 1, 1, m.id, [])];
    }
  }

  lemma FittingIsCountedClosely(m: Message)
    requires Sendable(m) && Fits(m)
    ensures SendOf(m).parts != [] && CountedClosely(SendOf(m))
    ensures SendOf(m).parts[0].count == |SendOf(m).parts| <==> CountsExactly(m.id, |m.payload|, m.mtu)
  {
    SendOfShaped(m);
    if m.payload != [] { PartsNeededIsDivision(|m.payload|, Chunk(m.mtu, m.id)); }
  }

  /** Every packet of a sent message decodes to its part, unless it declares more parts than allowed. */
  lemma PacketDecodes(x: Sent, i: nat, maxNrMessages: uint16, md5: Checksum)
    requires Shaped(x) && i < |x.parts|
    ensures Decode(Encode(x.parts[i], md5), maxNrMessages, md5)
            == if x.parts[i].count > maxNrMessages then None else Some(x.parts[i])
  {
    assert x.parts[i] == Part(x.m.messageType, Uint16(i + 1), x.parts[0].count, x.m.id, x.parts[i].payload);
    DecodeEncode(x.parts[i], maxNrMessages, md5);
  }

  // The network as a state machine

  datatype State = State(
    sent: map<Bytes, Sent>,              // by id: every message has its own
    cache: CacheState,
    busy: map<nat, Output>,              // workers between AddPartAndSnapshot and RemoveEntry
    delivered: multiset<Output>,
    arrivals: multiset<(Bytes, uint16)>, // id and number of every packet ever received
    peak: nat)                           // the largest limit the cache has had

  datatype Event =
    | Send(m: Message)
    | Receive(worker: nat, id: Bytes, index: nat, now: int)
    | Finish(worker: nat)
    | CleanUp(now: int)
    | SetLimits(maxEntries: int, maxNrMessages: uint16)

  function Init(maxEntries: int, maxNrMessages: uint16): State {
    State(map[], CacheState(map[], maxEntries, maxNrMessages), map[], multiset{}, multiset{}, Max(0, maxEntries))
  }

  function Max(a: int, b: int): int {
    if a < b then b else a
  }

  /** A packet may arrive once its message is sent, at an idle worker, any number of times or never. */
  predicate Enabled(s: State, e: Event) {
    match e
    case Send(m) => Sendable(m) && m.id !in s.sent
    case Receive(w, id, i, _) => w !in s.busy && id in s.sent && i < |s.sent[id].parts|
    case Finish(w) => w in s.busy && s.busy[w].Delivered?
    case CleanUp(_) => true
    case SetLimits(_, _) => true
  }

  function Accept(s: State, w: nat, p: Part, now: int): State {
    if p.count <= 1 then s.(delivered := s.delivered + multiset{Delivered(p.messageType, p.id, p.payload)})
    else
      var cache := AddPart(s.cache, p, now);
      match Completed(s.cache, p, now)
      case None => s.(cache := cache)
      case Some(payload) => s.(cache := cache, busy := s.busy[w := Delivered(p.messageType, p.id, payload)])
  }

  function Next(s: State, e: Event): State
    requires Enabled(s, e)
  {
    match e
    case Send(m) => s.(sent := s.sent[m.id := SendOf(m)])
    case Receive(w, id, i, now) =>
      var p := s.sent[id].parts[i];
      var s' := s.(arrivals := s.arrivals + multiset{(id, p.number)});
      if p.count > s.cache.maxNrMessages then s' else Accept(s', w, p, now)
    case Finish(w) =>
      s.(cache := Remove(s.cache, s.busy[w].id), busy := s.busy - {w}, delivered := s.delivered + multiset{s.busy[w]})
    case CleanUp(now) => s.(cache := Clean(s.cache, now))
    case SetLimits(n, k) =>
      s.(cache := s.cache.(maxEntries := n, maxNrMessages := k), peak := Max(s.peak, n))
  }

  /** A part that leaves its entry incomplete. */
  lemma AcceptsPending(s: State, w: nat, id: Bytes, i: nat, now: int, e: Entry)
    requires Enabled(s, Receive(w, id, i, now))
    requires var p := s.sent[id].parts[i];
             1 < p.count <= s.cache.maxNrMessages && EntryWith(s.cache, p, now) == Some(e) && !IsComplete(e)
    ensures var p := s.sent[id].parts[i];
            Next(s, Receive(w, id, i, now))
            == s.(arrivals := s.arrivals + multiset{(id, p.number)}, cache := s.cache.(entries := s.cache.entries[p.id := e]))
  {
  }

  /** A part that completes its entry. */
  lemma AcceptsLast(s: State, w: nat, id: Bytes, i: nat, now: int, e: Entry, payload: Bytes)
    requires Enabled(s, Receive(w, id, i, now))
    requires var p := s.sent[id].parts[i];
             1 < p.count <= s.cache.maxNrMessages && EntryWith(s.cache, p, now) == Some(e)
             && IsComplete(e) && Assemble(e) == Some(payload)
    ensures var p := s.sent[id].parts[i];
            Next(s, Receive(w, id, i, now))
            == s.(arrivals := s.arrivals + multiset{(id, p.number)}, cache := s.cache.(entries := s.cache.entries[p.id := e]),
                  busy := s.busy[w := Delivered(p.messageType, p.id, payload)])
  {
  }

  predicate Valid(s: State, es: seq<Event>)
    decreases |es|
  {
    es == [] || (Enabled(s, es[0]) && Valid(Next(s, es[0]), es[1..]))
  }

  function Run(s: State, es: seq<Event>): State
    requires Valid(s, es)
    decreases |es|
  {
    if es == [] then s else Run(Next(s, es[0]), es[1..])
  }

  /** A worker that finishes at once performs exactly one call of ParseMessage on the bytes of the packet. */
  lemma ReceiveThenFinishIsStep(s: State, w: nat, id: Bytes, i: nat, now: int, md5: Checksum)
    requires Enabled(s, Receive(w, id, i, now)) && Shaped(s.sent[id])
    ensures var s1 := Next(s, Receive(w, id, i, now));
            var s2 := if w in s1.busy then Next(s1, Finish(w)) else s1;
            var (cache, out) := Step(s.cache, Encode(s.sent[id].parts[i], md5), now, md5);
            s2.cache == cache
            && s2.delivered == s.delivered + if out.Delivered? then multiset{out} else multiset{}
  {
    PacketDecodes(s.sent[id], i, s.cache.maxNrMessages, md5);
  }

  // Safety

  /** The entry holds parts of x and nothing else. */
  predicate EntryOf(e: Entry, x: Sent)
    requires |x.parts| > 0
  {
    e.len == x.parts[0].count
    && forall k :: k in e.val ==> 1 <= k <= |x.parts| && e.val[k] == x.parts[k - 1].payload
  }

  /** A message whose packets can complete it: counted exactly, and short of the wrapping loop variable. */
  predicate Completes(x: Sent)
    requires |x.parts| > 0
  {
    x.parts[0].count == |x.parts| < 0xFFFF
  }

  /** x is a message that fits, with its own parts. */
  predicate Registered(x: Sent) {
    Sendable(x.m) && Fits(x.m) && x == SendOf(x.m) && x.parts != []
  }

  /** An output for x's id is x, and x can be completed. */
  predicate Genuine(x: Sent, out: Output)
    requires x.parts != []
  {
    out.Delivered? && out.id == x.m.id ==> out == Out(x.m) && Completes(x)
  }

  /** What every run keeps about the message x and its id. */
  predicate Safe(s: State, x: Sent)
    requires Registered(x)
  {
    var id := x.m.id;
    && id in s.sent && s.sent[id] == x
    && (id in s.cache.entries ==> EntryOf(s.cache.entries[id], x))
    && (forall w :: w in s.busy ==> Genuine(x, s.busy[w]))
    && (forall out :: out in s.delivered ==> Genuine(x, out))
  }

  /** Nothing in the network carries an id that was not sent. */
  predicate Known(s: State) {
    && s.cache.entries.Keys <= s.sent.Keys
    && (forall w :: w in s.busy ==> s.busy[w].Delivered? && s.busy[w].id in s.sent)
    && (forall out :: out in s.delivered ==> out.Delivered? && out.id in s.sent)
  }

  predicate AllRegistered(s: State) {
    forall id :: id in s.sent ==> Registered(s.sent[id]) && s.sent[id].m.id == id
  }

  predicate Good(s: State) {
    AllRegistered(s) && Known(s) && forall id :: id in s.sent ==> Safe(s, s.sent[id])
  }

  /** The parts i..n of an entry, joined, are the payloads from there on. */
  lemma {:induction false} JoinIsFlatten(val: map<uint16, Bytes>, parts: seq<Part>, i: nat, n: uint16)
    requires 1 <= i <= n + 1 && n <= |parts|
    requires forall k: uint16 :: i <= k <= n ==> k in val && val[k] == parts[k - 1].payload
    ensures JoinParts(val, i, n) == Flatten(Payloads(parts[i - 1..n]))
    decreases n + 1 - i
  {
    if i <= n {
      JoinIsFlatten(val, parts, i + 1, n);
      assert parts[i - 1..n] == [parts[i - 1]] + parts[i..n];
      PayloadsCons(parts[i - 1], parts[i..n]);
    }
  }

  /** A complete entry assembles to the message, and only an exactly counted message completes its entry. */
  lemma CompleteEntry(e: Entry, x: Sent)
    requires Registered(x) && EntryOf(e, x) && IsComplete(e)
    ensures x.parts[0].count == |x.parts| && HasParts(e.val, e.len)
    ensures Assemble(e) == if e.len < 0xFFFF then Some(x.m.payload) else None
  {
    SendOfShaped(x.m);
    FittingIsCountedClosely(x.m);
    KeysFill(e.val, |x.parts|);
    JoinIsFlatten(e.val, x.parts, 1, e.len);
    assert x.parts[0..e.len] == x.parts;
  }

  lemma KeysFill(val: map<uint16, Bytes>, n: nat)
    requires forall k :: k in val ==> 1 <= k <= n
    ensures n < 0x1_0000 ==> |val| <= n
    ensures |val| == n < 0x1_0000 ==> HasParts(val, n)
  {
    if n < 0x1_0000 { SubsetSize(val.Keys, Range(n)); }
  }

  /** Part i of x, as FormatMessage wrote it. */
  lemma PartOf(x: Sent, i: nat)
    requires Registered(x) && i < |x.parts|
    ensures x.parts[i] == Part(x.m.messageType, Uint16(i + 1), x.parts[0].count, x.m.id, x.parts[i].payload)
    ensures i + 1 < 0x1_0000 && CountedClosely(x)
  {
    SendOfShaped(x.m);
    FittingIsCountedClosely(x.m);
  }

  lemma OwnEntry(x: Sent, c: CacheState, p: Part, now: int)
    requires x.parts != [] && 1 <= p.number <= |x.parts| && p.id == x.m.id
    requires p.count == x.parts[0].count && p.payload == x.parts[p.number - 1].payload
    requires p.id in c.entries ==> EntryOf(c.entries[p.id], x)
    ensures EntryWith(c, p, now).Some? ==> EntryOf(EntryWith(c, p, now).value, x)
  {
  }

  lemma OwnPart(x: Sent, c: CacheState, i: nat, now: int)
    requires Registered(x) && i < |x.parts|
    requires x.m.id in c.entries ==> EntryOf(c.entries[x.m.id], x)
    ensures var e := EntryWith(c, x.parts[i], now);
            e.Some? ==> EntryOf(e.value, x)
    ensures var out := Completed(c, x.parts[i], now);
            out.Some? ==> out.value == x.m.payload && Completes(x)
  {
    PartOf(x, i);
    OwnEntry(x, c, x.parts[i], now);
    var e := EntryWith(c, x.parts[i], now);
    if e.Some? && IsComplete(e.value) { CompleteEntry(e.value, x); }
  }

  lemma AddPartSize(c: CacheState, p: Part, now: int)
    ensures var n := |AddPart(c, p, now).entries|;
            n <= |c.entries| || n <= c.maxEntries
  {
    if EntryWith(c, p, now).Some? {
      assert AddPart(c, p, now).entries.Keys == c.entries.Keys + {p.id};
    }
  }

  lemma SinglePart(x: Sent)
    requires Registered(x) && x.parts[0].count <= 1
    ensures Completes(x) && x.parts[0].payload == x.m.payload
  {
    SendOfShaped(x.m);
    FittingIsCountedClosely(x.m);
    assert Payloads(x.parts) == [x.parts[0].payload];
    assert Flatten(Payloads(x.parts)) == x.parts[0].payload + Flatten([]);
  }

  lemma AcceptOwn(s: State, x: Sent, w: nat, i: nat, now: int)
    requires Registered(x) && Safe(s, x) && i < |x.parts|
    ensures Safe(Accept(s, w, x.parts[i], now), x)
  {
    PartOf(x, i);
    if x.parts[i].count <= 1 {
      SinglePart(x);
      assert i == 0;
    } else {
      OwnPart(x, s.cache, i, now);
    }
  }

  lemma AcceptOther(s: State, x: Sent, w: nat, p: Part, now: int)
    requires Registered(x) && Safe(s, x) && p.id != x.m.id
    ensures Safe(Accept(s, w, p, now), x)
  {
  }

  lemma ReceiveSafe(s: State, x: Sent, w: nat, id: Bytes, i: nat, now: int)
    requires Registered(x) && Safe(s, x) && Enabled(s, Receive(w, id, i, now)) && Registered(s.sent[id]) && s.sent[id].m.id == id
    ensures Safe(Next(s, Receive(w, id, i, now)), x)
  {
    var y := s.sent[id];
    PartOf(y, i);
    var s' := s.(arrivals := s.arrivals + multiset{(id, y.parts[i].number)});
    if id == x.m.id { AcceptOwn(s', x, w, i, now); } else { AcceptOther(s', x, w, y.parts[i], now); }
  }

  lemma NextSafe(s: State, x: Sent, e: Event)
    requires Registered(x) && Safe(s, x) && Enabled(s, e) && AllRegistered(s)
    ensures Safe(Next(s, e), x)
  {
    if e.Receive? { ReceiveSafe(s, x, e.worker, e.id, e.index, e.now); }
  }

  lemma AcceptKnown(s: State, w: nat, p: Part, now: int)
    requires Known(s) && p.id in s.sent
    ensures Known(Accept(s, w, p, now))
  {
  }

  lemma NextKnown(s: State, e: Event)
    requires Known(s) && Enabled(s, e)
    requires e.Receive? ==> s.sent[e.id].parts[e.index].id == e.id
    ensures Known(Next(s, e))
  {
    if e.Receive? {
      var p := s.sent[e.id].parts[e.index];
      AcceptKnown(s.(arrivals := s.arrivals + multiset{(e.id, p.number)}), e.worker, p, e.now);
    }
  }

  lemma NextSent(s: State, e: Event)
    requires Enabled(s, e)
    ensures Next(s, e).sent == if e.Send? then s.sent[e.m.id := SendOf(e.m)] else s.sent
  {
  }

  lemma NextRegistered(s: State, e: Event)
    requires AllRegistered(s) && Enabled(s, e)
    requires e.Send? ==> Fits(e.m)
    ensures AllRegistered(Next(s, e))
  {
    NextSent(s, e);
    if e.Send? { FittingIsCountedClosely(e.m); }
  }

  lemma FirstSafe(s: State, m: Message)
    requires Known(s) && Enabled(s, Send(m)) && Registered(SendOf(m))
    ensures Safe(Next(s, Send(m)), SendOf(m))
  {
  }

  lemma NextGood(s: State, e: Event)
    requires Good(s) && Enabled(s, e)
    requires e.Send? ==> Fits(e.m)
    ensures Good(Next(s, e))
  {
    if e.Receive? { PartOf(s.sent[e.id], e.index); }
    NextKnown(s, e);
    NextRegistered(s, e);
    NextSent(s, e);
    forall id | id in Next(s, e).sent ensures Safe(Next(s, e), Next(s, e).sent[id]) {
      if e.Send? && id == e.m.id { FirstSafe(s, e.m); } else { NextSafe(s, s.sent[id], e); }
    }
  }

  predicate SendsFit(es: seq<Event>) {
    forall i :: 0 <= i < |es| && es[i].Send? ==> Sendable(es[i].m) && Fits(es[i].m)
  }

  lemma {:induction false} RunGood(s: State, es: seq<Event>)
    requires Good(s) && Valid(s, es) && SendsFit(es)
    ensures Good(Run(s, es))
    decreases |es|
  {
    if es != [] {
      NextGood(s, es[0]);
      RunGood(Next(s, es[0]), es[1..]);
    }
  }

  /**
   * In every run whose messages fit, with any number of workers, whatever is delivered is a message that was
   * sent, unaltered, and one whose packets declare their true number, below 65535.
   */
  lemma DeliveredWasSent(maxEntries: int, maxNrMessages: uint16, es: seq<Event>)
    requires Valid(Init(maxEntries, maxNrMessages), es) && SendsFit(es)
    ensures var s := Run(Init(maxEntries, maxNrMessages), es);
            forall out :: out in s.delivered ==>
              out.Delivered? && out.id in s.sent
              && var m := s.sent[out.id].m;
                 out == Out(m) && Sendable(m) && CountsExactly(m.id, |m.payload|, m.mtu)
                 && s.sent[out.id] == SendOf(m) && SendOf(m).parts != [] && Completes(SendOf(m))
  {
    RunGood(Init(maxEntries, maxNrMessages), es);
    var s := Run(Init(maxEntries, maxNrMessages), es);
    forall out | out in s.delivered
      ensures out.Delivered? && out.id in s.sent
      ensures var m := s.sent[out.id].m;
              out == Out(m) && Sendable(m) && CountsExactly(m.id, |m.payload|, m.mtu)
              && s.sent[out.id] == SendOf(m) && SendOf(m).parts != [] && Completes(SendOf(m))
    {
      assert Safe(s, s.sent[out.id]);
      FittingIsCountedClosely(s.sent[out.id].m);
    }
  }

  // The size of the cache

  predicate Bounded(s: State) {
    s.cache.maxEntries <= s.peak && |s.cache.entries| <= s.peak
  }

  /** A message whose packets declare more than there are never comes out, however its packets arrive. */
  lemma MiscountedIsNeverDelivered(maxEntries: int, maxNrMessages: uint16, es: seq<Event>, id: Bytes)
    requires Valid(Init(maxEntries, maxNrMessages), es) && SendsFit(es)
    requires var s := Run(Init(maxEntries, maxNrMessages), es);
             id in s.sent && var m := s.sent[id].m; Sendable(m) && m.id == id && !CountsExactly(m.id, |m.payload|, m.mtu)
    ensures forall out :: out in Run(Init(maxEntries, maxNrMessages), es).delivered ==> out.Delivered? && out.id != id
  {
    DeliveredWasSent(maxEntries, maxNrMessages, es);
  }

  lemma NextBounded(s: State, e: Event)
    requires Bounded(s) && Enabled(s, e)
    ensures Bounded(Next(s, e))
  {
    var s' := Next(s, e);
    match e
    case Send(_) =>
    case Receive(w, id, i, now) =>
      AddPartSize(s.cache, s.sent[id].parts[i], now);
    case Finish(w) => SubsetSize(s'.cache.entries.Keys, s.cache.entries.Keys);
    case CleanUp(now) => SubsetSize(s'.cache.entries.Keys, s.cache.entries.Keys);
    case SetLimits(_, _) =>
  }

  /** In every run, fitting messages or not, the cache never holds more entries than its largest limit so far. */
  lemma {:induction false} CacheIsBounded(s: State, es: seq<Event>)
    requires Bounded(s) && Valid(s, es)
    ensures Bounded(Run(s, es))
    decreases |es|
  {
    if es != [] {
      NextBounded(s, es[0]);
      CacheIsBounded(Next(s, es[0]), es[1..]);
    }
  }
}

/**
 * Messages of more than 65535 parts. NrMessages logs that such a message "will not be delivered", but the
 * truncated count may still be one the receiver accepts, and then something else is delivered under its id.
 */
module Truncation {
  import opened Bytes
  import opened Options
  import opened Formatter
  import opened Splitting
  import opened Parser
  import opened Network
  import opened Delivery

  /** Runs in which m is the only message and the limits stay as they were configured. */
  predicate OnlyMessage(es: seq<Event>, m: Message) {
    forall i :: 0 <= i < |es| ==> (es[i].Send? ==> es[i].m == m) && !es[i].SetLimits?
  }

  predicate OnlyDelivers(s: State, m: Message) {
    forall out :: out in s.delivered ==> out == Out(m)
  }

  function DeclaredCount(m: Message): uint16
    requires Sendable(m)
  {
    Declared(m.id, |m.payload|, m.mtu)
  }

  // Counts the receiver never assembles

  /** m's packets are refused, or collect in an entry that is never assembled. */
  predicate Harmless(s: State, m: Message, maxNrMessages: uint16)
    requires Sendable(m)
  {
    && s.cache.maxNrMessages == maxNrMessages && s.busy == map[] && s.delivered == multiset{}
    && (forall id :: id in s.sent ==> s.sent[id] == SendOf(m))
    && (forall id :: id in s.cache.entries ==> s.cache.entries[id].len == 0xFFFF)
  }

  lemma NextHarmless(s: State, e: Event, m: Message, maxNrMessages: uint16)
    requires Sendable(m) && (DeclaredCount(m) > maxNrMessages || DeclaredCount(m) == 0xFFFF)
    requires Harmless(s, m, maxNrMessages) && Enabled(s, e) && (e.Send? ==> e.m == m) && !e.SetLimits?
    ensures Harmless(Next(s, e), m, maxNrMessages)
  {
    SendOfShaped(m);
    if e.Receive? {
      var p := s.sent[e.id].parts[e.index];
      assert p.count == SendOf(m).parts[0].count == DeclaredCount(m);
    }
  }

  lemma {:induction false} RunHarmless(s: State, es: seq<Event>, m: Message, maxNrMessages: uint16)
    requires Sendable(m) && (DeclaredCount(m) > maxNrMessages || DeclaredCount(m) == 0xFFFF)
    requires Harmless(s, m, maxNrMessages) && Valid(s, es) && OnlyMessage(es, m)
    ensures Harmless(Run(s, es), m, maxNrMessages)
    decreases |es|
  {
    if es != [] {
      NextHarmless(s, es[0], m, maxNrMessages);
      RunHarmless(Next(s, es[0]), es[1..], m, maxNrMessages);
    }
  }

  // Counts it does assemble

  lemma {:induction false} RunSnoc(s: State, es: seq<Event>, e: Event)
    requires Valid(s, es) && Enabled(Run(s, es), e)
    ensures Valid(s, es + [e]) && Run(s, es + [e]) == Next(Run(s, es), e)
    decreases |es|
  {
    if es == [] {
      assert [] + [e] == [e];
    } else {
      RunSnoc(Next(s, es[0]), es[1..], e);
      assert (es + [e])[1..] == es[1..] + [e];
    }
  }

  lemma {:induction false} PayloadsBound(parts: seq<Part>, chunk: nat)
    requires forall i :: 0 <= i < |parts| ==> |parts[i].payload| <= chunk
    ensures |Flatten(Payloads(parts))| <= |parts| * chunk
  {
    if parts != [] {
      PayloadsBound(parts[1..], chunk);
      PayloadsCons(parts[0], parts[1..]);
      assert [parts[0]] + parts[1..] == parts;
    }
  }

  /** The truncated count covers strictly less than the message. */
  lemma TruncatedIsShort(m: Message)
    requires Sendable(m) && !Fits(m) && DeclaredCount(m) != 0xFFFF
    ensures DeclaredCount(m) < Emitted(m.id, |m.payload|, m.mtu) && DeclaredCount(m) * Chunk(m.mtu, m.id) < |m.payload|
    ensures Chunk(m.mtu, m.id) < |m.payload|
  {
    var chunk, n := Chunk(m.mtu, m.id), |m.payload|;
    var q := n / chunk;
    PartsNeededIsDivision(n, chunk);
    assert n == q * chunk + n % chunk;
    assert DeclaredCount(m) < q;
    ProductLess(DeclaredCount(m), q, chunk);
    ProductLess(1, q, chunk);
  }

  lemma ProductLess(a: nat, b: nat, c: nat)
    requires a < b && c > 0
    ensures a * c < b * c
  {
  }

  /** The entry holds the first n parts of x, and no others. */
  predicate FirstParts(e: Entry, x: Sent, n: uint16) {
    n <= |x.parts| && e.val.Keys == Range(n)
    && forall k: uint16 :: 1 <= k <= n ==> e.val[k] == x.parts[k - 1].payload
  }

  lemma AddKey(val: map<uint16, Bytes>, k: uint16, payload: Bytes, keys: set<uint16>)
    requires val.Keys == keys && k !in keys
    ensures val[k := payload].Keys == keys + {k} && |val[k := payload]| == |keys| + 1
  {
    assert |val[k := payload]| == |val[k := payload].Keys|;
  }

  lemma NextKey(val: map<uint16, Bytes>, n: uint16, payload: Bytes)
    requires val.Keys == Range(n) && n < 0xFFFF
    ensures val[n + 1 := payload].Keys == Range(n + 1) && |val[n + 1 := payload]| == n + 1
  {
    AddKey(val, n + 1, payload, Range(n));
  }

  lemma NextPayload(val: map<uint16, Bytes>, x: Sent, n: uint16, k: uint16)
    requires n < |x.parts| && n < 0xFFFF && 1 <= k <= n + 1
    requires k <= n ==> k in val && val[k] == x.parts[k - 1].payload
    ensures val[n + 1 := x.parts[n].payload][k] == x.parts[k - 1].payload
  {
  }

  lemma FirstPartsNext(e: Entry, x: Sent, n: uint16)
    requires FirstParts(e, x, n) && n < |x.parts| && n < 0xFFFF
    ensures FirstParts(e.(val := e.val[n + 1 := x.parts[n].payload]), x, n + 1)
    ensures |e.val[n + 1 := x.parts[n].payload]| == n + 1
  {
    var val := e.val[n + 1 := x.parts[n].payload];
    NextKey(e.val, n, x.parts[n].payload);
    forall k: uint16 | 1 <= k <= n + 1 ensures val[k] == x.parts[k - 1].payload {
      NextPayload(e.val, x, n, k);
    }
  }

  lemma FirstPartsAssemble(e: Entry, x: Sent)
    requires FirstParts(e, x, e.len) && 0 < e.len < 0xFFFF
    ensures Assemble(e) == Some(Flatten(Payloads(x.parts[..e.len])))
  {
    JoinIsFlatten(e.val, x.parts, 1, e.len);
    assert x.parts[0..e.len] == x.parts[..e.len];
  }

  /** Only x was sent, and the cache has collected its first n parts. */
  predicate HoldsFirst(s: State, x: Sent, n: uint16) {
    var id := x.m.id;
    && x.parts != [] && s.sent == map[id := x] && s.busy == map[] && s.delivered == multiset{} && s.cache.maxEntries > 0
    && if n == 0 then s.cache.entries == map[]
       else id in s.cache.entries && s.cache.entries[id].len == x.parts[0].count && FirstParts(s.cache.entries[id], x, n)
  }

  /** Part n + 1 arrives after parts 1 to n. */
  lemma EntryOfPrefix(s: State, x: Sent, n: uint16, p: Part)
    requires HoldsFirst(s, x, n) && n < |x.parts| && n < 0xFFFF && p == x.parts[n]
    requires p.number == n + 1 && p.count == x.parts[0].count > 0 && p.id == x.m.id
    ensures var e := EntryWith(s.cache, p, 0);
            e.Some? && e.value.len == p.count && FirstParts(e.value, x, n + 1) && |e.value.val| == n + 1
  {
    var none := Entry(ENTRY_LIFETIME, p.count, map[]);
    FirstPartsNext(if n == 0 then none else s.cache.entries[p.id], x, n);
    assert none.val[p.number := p.payload] == map[p.number := p.payload];
  }

  lemma HeadedPart(x: Sent, n: nat)
    requires Headed(x) && n < |x.parts| && n < 0xFFFF
    ensures var p := x.parts[n];
            p.number == n + 1 && p.count == x.parts[0].count && p.id == x.m.id && p.messageType == x.m.messageType
  {
    assert x.parts[n] == Part(x.m.messageType, Uint16(n + 1), x.parts[0].count, x.m.id, x.parts[n].payload);
  }

  /** The limits under which every part of x is stored and the entry can be assembled. */
  predicate Assembled(s: State, x: Sent) {
    Headed(x) && x.parts != [] && 1 < x.parts[0].count < 0xFFFF
    && x.parts[0].count <= |x.parts| && x.parts[0].count <= s.cache.maxNrMessages
  }

  lemma NextOfPrefix(s: State, x: Sent, n: uint16)
    requires Assembled(s, x) && HoldsFirst(s, x, n) && n + 1 < x.parts[0].count
    ensures Enabled(s, Receive(0, x.m.id, n, 0))
    ensures HoldsFirst(Next(s, Receive(0, x.m.id, n, 0)), x, n + 1)
    ensures Next(s, Receive(0, x.m.id, n, 0)).cache.maxNrMessages == s.cache.maxNrMessages
  {
    HeadedPart(x, n);
    EntryOfPrefix(s, x, n, x.parts[n]);
    AcceptsPending(s, 0, x.m.id, n, 0, EntryWith(s.cache, x.parts[n], 0).value);
  }

  /** What the declared number of parts assembles to. */
  function PrefixOut(x: Sent): Output
    requires x.parts != [] && x.parts[0].count <= |x.parts|
  {
    Delivered(x.m.messageType, x.m.id, Flatten(Payloads(x.parts[..x.parts[0].count])))
  }

  lemma LastOfPrefix(s: State, x: Sent, n: uint16)
    requires Assembled(s, x) && HoldsFirst(s, x, n) && n + 1 == x.parts[0].count
    ensures Enabled(s, Receive(0, x.m.id, n, 0))
    ensures Next(s, Receive(0, x.m.id, n, 0)).busy == map[0 := PrefixOut(x)]
  {
    HeadedPart(x, n);
    EntryOfPrefix(s, x, n, x.parts[n]);
    var e := EntryWith(s.cache, x.parts[n], 0).value;
    FirstPartsAssemble(e, x);
    AcceptsLast(s, 0, x.m.id, n, 0, e, PrefixOut(x).payload);
  }

  /** es leads from s to s', without other messages or changed limits. */
  predicate Leads(s: State, es: seq<Event>, s': State, m: Message) {
    Valid(s, es) && Run(s, es) == s' && OnlyMessage(es, m)
  }

  lemma LeadsOn(s: State, es: seq<Event>, s': State, e: Event, m: Message)
    requires Leads(s, es, s', m) && Enabled(s', e) && !e.Send? && !e.SetLimits?
    ensures Leads(s, es + [e], Next(s', e), m)
  {
    RunSnoc(s, es, e);
  }

  lemma {:induction false} PrefixRuns(s: State, x: Sent, n: uint16) returns (es: seq<Event>, s': State)
    requires Assembled(s, x) && HoldsFirst(s, x, 0) && n < x.parts[0].count
    ensures Leads(s, es, s', x.m) && HoldsFirst(s', x, n) && s'.cache.maxNrMessages == s.cache.maxNrMessages
  {
    if n == 0 {
      es, s' := [], s;
    } else {
      var before, s1 := PrefixRuns(s, x, n - 1);
      NextOfPrefix(s1, x, n - 1);
      var e := Receive(0, x.m.id, n - 1, 0);
      LeadsOn(s, before, s1, e, x.m);
      es, s' := before + [e], Next(s1, e);
    }
  }

  /** The packets up to the declared count complete with a prefix of the message. */
  lemma PrefixDelivers(s: State, x: Sent) returns (es: seq<Event>)
    requires Assembled(s, x) && HoldsFirst(s, x, 0)
    ensures Valid(s, es) && OnlyMessage(es, x.m)
    ensures PrefixOut(x) in Run(s, es).delivered
  {
    var n := x.parts[0].count;
    var before, s1 := PrefixRuns(s, x, n - 1);
    LastOfPrefix(s1, x, n - 1);
    var last := Receive(0, x.m.id, n - 1, 0);
    LeadsOn(s, before, s1, last, x.m);
    FinishDelivers(Next(s1, last), 0);
    LeadsOn(s, before + [last], Next(s1, last), Finish(0), x.m);
    es := before + [last] + [Finish(0)];
  }

  lemma FinishDelivers(s: State, w: nat)
    requires Enabled(s, Finish(w))
    ensures s.busy[w] in Next(s, Finish(w)).delivered
  {
  }

  /** Delivering the packets in order delivers a strict prefix of the message under its id. */
  lemma TruncatedDeliversPrefix(m: Message, maxEntries: int, maxNrMessages: uint16) returns (es: seq<Event>)
    requires Sendable(m) && !Fits(m) && maxEntries > 0
    requires 1 < DeclaredCount(m) < 0xFFFF && DeclaredCount(m) <= maxNrMessages
    ensures Valid(Init(maxEntries, maxNrMessages), es) && OnlyMessage(es, m)
    ensures SendOf(m).parts != [] && DeclaredCount(m) == SendOf(m).parts[0].count <= |SendOf(m).parts|
    ensures PrefixOut(SendOf(m)) in Run(Init(maxEntries, maxNrMessages), es).delivered
    ensures |PrefixOut(SendOf(m)).payload| < |m.payload| && PrefixOut(SendOf(m)).payload <= m.payload
  {
    var s0, x := Init(maxEntries, maxNrMessages), SendOf(m);
    SendOfShaped(m);
    TruncatedIsShort(m);
    NextSent(s0, Send(m));
    var tail := PrefixDelivers(Next(s0, Send(m)), x);
    es := [Send(m)] + tail;
    RunCons(s0, Send(m), tail);
    PrefixIsShort(m);
  }

  lemma PrefixIsShort(m: Message)
    requires Sendable(m) && !Fits(m) && DeclaredCount(m) != 0xFFFF
    ensures DeclaredCount(m) <= |SendOf(m).parts| && |Flatten(Payloads(SendOf(m).parts[..DeclaredCount(m)]))| < |m.payload|
    ensures Flatten(Payloads(SendOf(m).parts[..DeclaredCount(m)])) <= m.payload
  {
    SplitShape(m.messageType, m.id, m.payload, m.mtu);
    TruncatedIsShort(m);
    PayloadsBound(SendOf(m).parts[..DeclaredCount(m)], Chunk(m.mtu, m.id));
    PayloadsPrefix(SendOf(m).parts, DeclaredCount(m));
  }

  /** The payloads of the first parts are the beginning of all the payloads. */
  lemma {:induction false} PayloadsPrefix(parts: seq<Part>, n: nat)
    requires n <= |parts|
    ensures Flatten(Payloads(parts[..n])) <= Flatten(Payloads(parts))
  {
    if n > 0 {
      PayloadsPrefix(parts[1..], n - 1);
      PayloadsCons(parts[0], parts[1..]);
      PayloadsCons(parts[0], parts[1..][..n - 1]);
      assert parts == [parts[0]] + parts[1..] && parts[..n] == [parts[0]] + parts[1..][..n - 1];
    }
  }

  /** A truncated count of 0 or 1 delivers the first fragment as if it were the message. */
  lemma TruncatedDeliversFragment(m: Message, maxEntries: int, maxNrMessages: uint16) returns (es: seq<Event>)
    requires Sendable(m) && !Fits(m) && DeclaredCount(m) <= 1 && DeclaredCount(m) <= maxNrMessages
    ensures Valid(Init(maxEntries, maxNrMessages), es) && OnlyMessage(es, m)
    ensures SendOf(m).parts != [] && |SendOf(m).parts[0].payload| < |m.payload|
    ensures Delivered(m.messageType, m.id, SendOf(m).parts[0].payload) in Run(Init(maxEntries, maxNrMessages), es).delivered
  {
    var s0, x := Init(maxEntries, maxNrMessages), SendOf(m);
    SendOfShaped(m);
    FirstIsShort(m);
    NextSent(s0, Send(m));
    var s1, e := Next(s0, Send(m)), Receive(0, m.id, 0, 0);
    es := [Send(m)] + ([e] + []);
    FragmentDelivers(s1, x);
    RunCons(s1, e, []);
    RunCons(s0, Send(m), [e] + []);
  }

  lemma FragmentDelivers(s: State, x: Sent)
    requires Headed(x) && x.parts != [] && s.sent == map[x.m.id := x] && s.busy == map[]
    requires x.parts[0].count <= 1 && x.parts[0].count <= s.cache.maxNrMessages
    ensures Enabled(s, Receive(0, x.m.id, 0, 0))
    ensures Delivered(x.m.messageType, x.m.id, x.parts[0].payload) in Next(s, Receive(0, x.m.id, 0, 0)).delivered
  {
    assert x.parts[0] == Part(x.m.messageType, 1, x.parts[0].count, x.m.id, x.parts[0].payload);
  }

  lemma FirstIsShort(m: Message)
    requires Sendable(m) && !Fits(m) && DeclaredCount(m) != 0xFFFF
    ensures SendOf(m).parts != [] && |SendOf(m).parts[0].payload| < |m.payload|
  {
    SplitShape(m.messageType, m.id, m.payload, m.mtu);
    TruncatedIsShort(m);
  }

  lemma {:induction false} OnlyMessageFits(es: seq<Event>, m: Message)
    requires Sendable(m) && Fits(m) && OnlyMessage(es, m)
    ensures SendsFit(es)
  {
    forall i | 0 <= i < |es| && es[i].Send? ensures Sendable(es[i].m) && Fits(es[i].m) { assert es[i].m == m; }
  }

  lemma {:induction false} SentIsM(s: State, es: seq<Event>, m: Message)
    requires Sendable(m) && Valid(s, es) && OnlyMessage(es, m)
    requires forall id :: id in s.sent ==> s.sent[id].m == m
    ensures forall id :: id in Run(s, es).sent ==> Run(s, es).sent[id].m == m
    decreases |es|
  {
    if es != [] {
      NextSent(s, es[0]);
      SentIsM(Next(s, es[0]), es[1..], m);
    }
  }

  /** A message is only ever delivered as itself exactly when its count fits or the receiver cannot use it. */
  lemma DeliveredAsItselfIff(m: Message, maxEntries: int, maxNrMessages: uint16)
    requires Sendable(m) && maxEntries > 0
    ensures (forall es :: Valid(Init(maxEntries, maxNrMessages), es) && OnlyMessage(es, m) ==>
               OnlyDelivers(Run(Init(maxEntries, maxNrMessages), es), m))
            <==> (Fits(m) || DeclaredCount(m) > maxNrMessages || DeclaredCount(m) == 0xFFFF)
  {
    var s0 := Init(maxEntries, maxNrMessages);
    if Fits(m) {
      forall es | Valid(s0, es) && OnlyMessage(es, m) ensures OnlyDelivers(Run(s0, es), m) {
        OnlyMessageFits(es, m);
        DeliveredWasSent(maxEntries, maxNrMessages, es);
        SentIsM(s0, es, m);
      }
    } else if DeclaredCount(m) > maxNrMessages || DeclaredCount(m) == 0xFFFF {
      forall es | Valid(s0, es) && OnlyMessage(es, m) ensures OnlyDelivers(Run(s0, es), m) {
        RunHarmless(s0, es, m, maxNrMessages);
      }
    } else if DeclaredCount(m) <= 1 {
      var es := TruncatedDeliversFragment(m, maxEntries, maxNrMessages);
    } else {
      var es := TruncatedDeliversPrefix(m, maxEntries, maxNrMessages);
    }
  }
}

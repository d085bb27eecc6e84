/** How often a message is delivered: at most as often as its rarest fragment arrived, for each worker that receives. */
module Delivery {
  import opened Bytes
  import opened Options
  import opened Formatter
  import opened Parser
  import opened Network

  predicate Multipart(x: Sent) {
    x.parts != [] && x.parts[0].count > 1
  }

  /** The workers that have completed the message with this id and have yet to remove its entry. */
  function Holders(s: State, id: Bytes): set<nat> {
    set w | w in s.busy && s.busy[w].Delivered? && s.busy[w].id == id
  }

  predicate Collecting(s: State, x: Sent, k: nat) {
    x.m.id in s.cache.entries && k in s.cache.entries[x.m.id].val
  }

  /** Deliveries of x done and about to be done; a copy of part k in the cache may serve each of n workers once. */
  function Tally(s: State, x: Sent, n: nat, k: nat): nat {
    s.delivered[Out(x.m)] + if Collecting(s, x, k) then n else |Holders(s, x.m.id)|
  }

  predicate Paid(s: State, x: Sent, n: nat, k: uint16) {
    Tally(s, x, n, k) <= n * s.arrivals[(x.m.id, k)]
  }

  /** Only these workers are busy. */
  predicate Staffed(s: State, workers: set<nat>) {
    s.busy.Keys <= workers
  }

  lemma HoldersBound(s: State, id: Bytes, workers: set<nat>)
    requires Staffed(s, workers)
    ensures |Holders(s, id)| <= |workers|
  {
    SubsetSize(Holders(s, id), workers);
  }

  lemma OneMore(n: nat, a: nat)
    ensures n * (a + 1) == n * a + n
  {
  }

  /** What one part of x does to the tally of part k. */
  lemma AcceptPaid(s: State, x: Sent, w: nat, i: nat, now: int, k: uint16, workers: set<nat>)
    requires Registered(x) && Multipart(x) && Safe(s, x) && 1 <= k <= |x.parts| && i < |x.parts|
    requires Staffed(s, workers) && w in workers && w !in s.busy
    ensures var s' := Accept(s, w, x.parts[i], now);
            s'.delivered == s.delivered && s'.arrivals == s.arrivals
            && Tally(s', x, |workers|, k) <= s.delivered[Out(x.m)] + |workers|
            && (k != x.parts[i].number ==> Tally(s', x, |workers|, k) == Tally(s, x, |workers|, k))
  {
    var p := x.parts[i];
    PartOf(x, i);
    var s' := Accept(s, w, p, now);
    HoldersBound(s', x.m.id, workers);
    var e := EntryWith(s.cache, p, now);
    if e.Some? && IsComplete(e.value) {
      OwnPart(x, s.cache, i, now);
      CompleteEntry(e.value, x);
      assert k in e.value.val;
    } else {
      assert Holders(s', x.m.id) == Holders(s, x.m.id);
    }
  }

  /** One more part of x has arrived and is not handled yet. */
  function WithArrival(s: State, x: Sent, number: uint16): State {
    s.(arrivals := s.arrivals + multiset{(x.m.id, number)})
  }

  lemma ArrivedPays(s: State, x: Sent, number: uint16, n: nat, k: uint16)
    ensures var s' := WithArrival(s, x, number);
            && Tally(s', x, n, k) == Tally(s, x, n, k) && s'.delivered == s.delivered
            && n * s'.arrivals[(x.m.id, k)] == n * s.arrivals[(x.m.id, k)] + if k == number then n else 0
  {
    assert Holders(WithArrival(s, x, number), x.m.id) == Holders(s, x.m.id);
    assert WithArrival(s, x, number).arrivals[(x.m.id, k)] == s.arrivals[(x.m.id, k)] + if k == number then 1 else 0;
    OneMore(n, s.arrivals[(x.m.id, k)]);
  }

  lemma ReceivePaid(s: State, x: Sent, worker: nat, i: nat, now: int, k: uint16, workers: set<nat>)
    requires Registered(x) && Multipart(x) && Safe(s, x) && 1 <= k <= |x.parts| && Paid(s, x, |workers|, k)
    requires Enabled(s, Receive(worker, x.m.id, i, now)) && Staffed(s, workers) && worker in workers
    ensures Paid(Next(s, Receive(worker, x.m.id, i, now)), x, |workers|, k)
  {
    var p := x.parts[i];
    var s' := WithArrival(s, x, p.number);
    ArrivedPays(s, x, p.number, |workers|, k);
    PartOf(x, i);
    if p.count <= s.cache.maxNrMessages { AcceptPaid(s', x, worker, i, now, k, workers); }
  }

  lemma ReceiveOtherPaid(s: State, x: Sent, worker: nat, id: Bytes, i: nat, now: int, k: uint16, n: nat)
    requires Paid(s, x, n, k) && id != x.m.id
    requires Enabled(s, Receive(worker, id, i, now)) && s.sent[id].parts[i].id == id
    ensures Paid(Next(s, Receive(worker, id, i, now)), x, n, k)
  {
    var p := s.sent[id].parts[i];
    assert (s.arrivals + multiset{(id, p.number)})[(x.m.id, k)] == s.arrivals[(x.m.id, k)];
    assert Holders(Next(s, Receive(worker, id, i, now)), x.m.id) == Holders(s, x.m.id);
  }

  lemma FinishPaid(s: State, x: Sent, worker: nat, k: uint16, workers: set<nat>)
    requires Registered(x) && Safe(s, x) && Paid(s, x, |workers|, k) && Enabled(s, Finish(worker)) && Staffed(s, workers)
    ensures Paid(Next(s, Finish(worker)), x, |workers|, k)
  {
    var s' := Next(s, Finish(worker));
    HoldersBound(s, x.m.id, workers);
    assert Holders(s', x.m.id) == Holders(s, x.m.id) - {worker};
    if s.busy[worker].id == x.m.id { assert worker in Holders(s, x.m.id); }
  }

  lemma NextPaid(s: State, x: Sent, e: Event, k: uint16, workers: set<nat>)
    requires Registered(x) && Multipart(x) && Safe(s, x) && 1 <= k <= |x.parts| && Paid(s, x, |workers|, k)
    requires AllRegistered(s) && Staffed(s, workers) && Enabled(s, e) && (e.Receive? ==> e.worker in workers)
    ensures Paid(Next(s, e), x, |workers|, k)
  {
    match e
    case Send(_) => assert Holders(Next(s, e), x.m.id) == Holders(s, x.m.id);
    case Receive(w, id, i, now) =>
      if id == x.m.id { ReceivePaid(s, x, w, i, now, k, workers); }
      else {
        PartOf(s.sent[id], i);
        ReceiveOtherPaid(s, x, w, id, i, now, k, |workers|);
      }
    case Finish(w) => FinishPaid(s, x, w, k, workers);
    case CleanUp(_) =>
      HoldersBound(s, x.m.id, workers);
      assert Holders(Next(s, e), x.m.id) == Holders(s, x.m.id);
    case SetLimits(_, _) => assert Holders(Next(s, e), x.m.id) == Holders(s, x.m.id);
  }

  lemma StaysStaffed(s: State, e: Event, workers: set<nat>)
    requires Staffed(s, workers) && Enabled(s, e) && (e.Receive? ==> e.worker in workers)
    ensures Staffed(Next(s, e), workers)
  {
  }

  /** Only these workers receive. */
  predicate WorkersIn(es: seq<Event>, workers: set<nat>) {
    forall i :: 0 <= i < |es| && es[i].Receive? ==> es[i].worker in workers
  }

  lemma StaysPaid(s: State, e: Event, id: Bytes, k: uint16, workers: set<nat>)
    requires Good(s) && Staffed(s, workers) && Enabled(s, e) && (e.Receive? ==> e.worker in workers)
    requires id in s.sent ==> Paid(s, s.sent[id], |workers|, k)
    requires var s' := Next(s, e); id in s'.sent && Multipart(s'.sent[id]) && 1 <= k <= |s'.sent[id].parts|
    ensures Paid(Next(s, e), Next(s, e).sent[id], |workers|, k)
  {
    NextSent(s, e);
    if id in s.sent {
      NextPaid(s, s.sent[id], e, k, workers);
    } else {
      NothingYet(Next(s, e), Next(s, e).sent[id], |workers|, k);
    }
  }

  lemma {:induction false} RunPaid(s: State, es: seq<Event>, id: Bytes, k: uint16, workers: set<nat>)
    requires Good(s) && Staffed(s, workers) && Valid(s, es) && SendsFit(es) && WorkersIn(es, workers)
    requires id in s.sent ==> Paid(s, s.sent[id], |workers|, k)
    requires var s' := Run(s, es); id in s'.sent && Multipart(s'.sent[id]) && 1 <= k <= |s'.sent[id].parts|
    ensures Paid(Run(s, es), Run(s, es).sent[id], |workers|, k)
    decreases |es|
  {
    if es != [] {
      var e := es[0];
      NextGood(s, e);
      StaysStaffed(s, e, workers);
      if id in Next(s, e).sent {
        SentStays(Next(s, e), es[1..], id);
        StaysPaid(s, e, id, k, workers);
      }
      RunPaid(Next(s, e), es[1..], id, k, workers);
    }
  }

  /** Nothing of a message is in the network when it is sent. */
  lemma NothingYet(s: State, x: Sent, n: nat, k: uint16)
    requires x.m.id !in s.cache.entries
    requires forall w :: w in s.busy && s.busy[w].Delivered? ==> s.busy[w].id != x.m.id
    requires Out(x.m) !in s.delivered
    ensures Tally(s, x, n, k) == 0
  {
    assert Holders(s, x.m.id) == {};
  }

  lemma {:induction false} SentStays(s: State, es: seq<Event>, id: Bytes)
    requires Valid(s, es) && id in s.sent
    ensures id in Run(s, es).sent && Run(s, es).sent[id] == s.sent[id]
    decreases |es|
  {
    if es != [] {
      NextSent(s, es[0]);
      SentStays(Next(s, es[0]), es[1..], id);
    }
  }

  /** Every multi-part message was delivered at most n times for each arrival of each of its fragments. */
  predicate DeliveredWithin(s: State, n: nat) {
    forall id, k: uint16 :: id in s.sent && Multipart(s.sent[id]) && 1 <= k <= |s.sent[id].parts| ==>
      s.delivered[Out(s.sent[id].m)] <= n * s.arrivals[(id, k)]
  }

  /** With n workers, a multi-part message is delivered at most n times as often as its least often arrived fragment. */
  lemma WorkersBoundDeliveries(maxEntries: int, maxNrMessages: uint16, es: seq<Event>, workers: set<nat>)
    requires Valid(Init(maxEntries, maxNrMessages), es) && SendsFit(es) && WorkersIn(es, workers)
    ensures DeliveredWithin(Run(Init(maxEntries, maxNrMessages), es), |workers|)
  {
    var s0 := Init(maxEntries, maxNrMessages);
    var s := Run(s0, es);
    RunGood(s0, es);
    forall id, k: uint16 | id in s.sent && Multipart(s.sent[id]) && 1 <= k <= |s.sent[id].parts|
      ensures s.delivered[Out(s.sent[id].m)] <= |workers| * s.arrivals[(id, k)]
    {
      RunPaid(s0, es, id, k, workers);
      assert Paid(s, s.sent[id], |workers|, k);
    }
  }

  /** Every multi-part message was delivered at most as often as each of its fragments arrived. */
  predicate DeliveriesCovered(s: State) {
    DeliveredWithin(s, 1)
  }

  lemma OneWorkerCovers(maxEntries: int, maxNrMessages: uint16, es: seq<Event>, worker: nat)
    requires Valid(Init(maxEntries, maxNrMessages), es) && SendsFit(es) && WorkersIn(es, {worker})
    ensures DeliveriesCovered(Run(Init(maxEntries, maxNrMessages), es))
  {
    WorkersBoundDeliveries(maxEntries, maxNrMessages, es, {worker});
  }

  // Two workers

  /** Three bytes at two bytes a packet. */
  const THREE := Message(6, [], [7, 8, 9], 15)
  const P1 := Part(6, 1, 2, [], [7, 8])
  const P2 := Part(6, 2, 2, [], [9])

  lemma ThreeSplits()
    ensures Sendable(THREE) && Fits(THREE) && SendOf(THREE) == Sent(THREE, [P1, P2])
  {
    var m := THREE.payload;
    assert 3 / 2 == 1;
    assert First(m, 2) == [7, 8] && Suffix(m, 2) == [9];
    assert First([9], 2) == [9];
    assert PartsFrom(Part(6, 3, 2, [], []), [], 2) == [];
    assert PartsFrom(Part(6, 2, 2, [], []), [9], 2) == [P2];
    assert PartsFrom(Part(6, 1, 2, [], []), m, 2) == [P1] + [P2];
  }

  /** Worker b repeats fragment 1 before worker a, who has the whole message, removes the entry. */
  function Race(a: nat, b: nat): seq<Event> {
    [Send(THREE)] + ([Receive(a, [], 0, 0)] + ([Receive(a, [], 1, 0)] + ([Receive(b, [], 0, 0)] + ([Finish(a)] + ([Finish(b)] + [])))))
  }

  lemma RunCons(s: State, e: Event, es: seq<Event>)
    requires Enabled(s, e) && Valid(Next(s, e), es)
    ensures Valid(s, [e] + es) && Run(s, [e] + es) == Run(Next(s, e), es)
  {
    assert ([e] + es)[1..] == es;
  }

  lemma BothParts(e: Entry)
    requires e.len == 2 && e.val == map[1 := [7, 8], 2 := [9]]
    ensures IsComplete(e) && Assemble(e) == Some([7, 8, 9])
  {
    var n: uint16 := 2;
    assert e.val.Keys == {1, n};
    assert |e.val| == |e.val.Keys| == 2;
    assert JoinParts(e.val, 3, n) == [];
    assert JoinParts(e.val, 2, n) == [9] + JoinParts(e.val, 3, n);
    assert JoinParts(e.val, 1, n) == [7, 8] + JoinParts(e.val, 2, n);
    assert [7, 8] + ([9] + []) == [7, 8, 9];
  }

  /** A worker receives the part that completes THREE, or repeats a part of it while it is complete. */
  lemma ReceiveWhole(s: State, w: nat, i: nat)
    requires s.sent == map[[] := Sent(THREE, [P1, P2])] && s.cache.maxNrMessages >= 2 && i < 2 && w !in s.busy
    requires [] in s.cache.entries && s.cache.entries[[]].len == 2
    requires s.cache.entries[[]].val[(i + 1) as uint16 := [P1, P2][i].payload] == map[1 := [7, 8], 2 := [9]]
    ensures Enabled(s, Receive(w, [], i, 0))
    ensures var s' := Next(s, Receive(w, [], i, 0));
            s' == s.(cache := s'.cache, busy := s.busy[w := Out(THREE)], arrivals := s.arrivals + multiset{([], (i + 1) as uint16)})
            && s'.cache.maxNrMessages == s.cache.maxNrMessages && [] in s'.cache.entries && s'.cache.entries[[]].len == 2
            && s'.cache.entries[[]].val == map[1 := [7, 8], 2 := [9]]
  {
    var p := [P1, P2][i];
    assert p.count == 2 && p.number == i + 1;
    BothParts(EntryWith(s.cache, p, 0).value);
  }

  lemma RaceEnds(s: State, a: nat, b: nat)
    requires a != b && s.busy == map[a := Out(THREE), b := Out(THREE)] && s.delivered == multiset{}
    ensures Valid(s, [Finish(a)] + ([Finish(b)] + []))
    ensures var s' := Run(s, [Finish(a)] + ([Finish(b)] + []));
            s'.sent == s.sent && s'.arrivals == s.arrivals && s'.delivered[Out(THREE)] == 2
  {
    var s5 := Next(s, Finish(a));
    assert s5.busy == map[b := Out(THREE)];
    RunCons(s5, Finish(b), []);
    RunCons(s, Finish(a), [Finish(b)] + []);
  }

  /** The last three steps of Race. */
  lemma RaceTail(s3: State, a: nat, b: nat)
    requires a != b && s3.sent == map[[] := Sent(THREE, [P1, P2])] && s3.busy == map[a := Out(THREE)]
    requires s3.delivered == multiset{} && s3.cache.maxNrMessages >= 2
    requires [] in s3.cache.entries && s3.cache.entries[[]].len == 2
    requires s3.cache.entries[[]].val == map[1 := [7, 8], 2 := [9]]
    ensures var es := [Receive(b, [], 0, 0)] + ([Finish(a)] + ([Finish(b)] + []));
            Valid(s3, es) && Run(s3, es).sent == s3.sent && Run(s3, es).delivered[Out(THREE)] == 2
            && Run(s3, es).arrivals == s3.arrivals + multiset{([], 1)}
  {
    assert s3.cache.entries[[]].val[1 := [7, 8]] == map[1 := [7, 8], 2 := [9]];
    ReceiveWhole(s3, b, 0);
    var s4 := Next(s3, Receive(b, [], 0, 0));
    assert s4.busy == map[a := Out(THREE), b := Out(THREE)];
    RaceEnds(s4, a, b);
    RunCons(s3, Receive(b, [], 0, 0), [Finish(a)] + ([Finish(b)] + []));
  }

  /** The last four steps of Race. */
  lemma RaceFrom(s2: State, a: nat, b: nat)
    requires a != b && s2.sent == map[[] := Sent(THREE, [P1, P2])] && s2.busy == map[] && s2.delivered == multiset{}
    requires s2.cache.entries == map[[] := Entry(ENTRY_LIFETIME, 2, map[1 := [7, 8]])] && s2.cache.maxNrMessages >= 2
    requires s2.arrivals == multiset{([], 1)}
    ensures var es := [Receive(a, [], 1, 0)] + ([Receive(b, [], 0, 0)] + ([Finish(a)] + ([Finish(b)] + [])));
            Valid(s2, es) && Run(s2, es).sent == s2.sent
            && Run(s2, es).delivered[Out(THREE)] == 2 && Run(s2, es).arrivals[([], 2)] == 1
  {
    assert s2.cache.entries[[]].val[2 := [9]] == map[1 := [7, 8], 2 := [9]];
    ReceiveWhole(s2, a, 1);
    RaceTail(Next(s2, Receive(a, [], 1, 0)), a, b);
    RunCons(s2, Receive(a, [], 1, 0), [Receive(b, [], 0, 0)] + ([Finish(a)] + ([Finish(b)] + [])));
  }

  /** Nothing sent yet, and room for THREE. */
  predicate Fresh(s: State) {
    && s == State(map[], s.cache, map[], multiset{}, multiset{}, s.peak)
    && s.cache.entries == map[] && s.cache.maxEntries > 0 && s.cache.maxNrMessages >= 2
  }

  lemma RaceRuns(s0: State, a: nat, b: nat)
    requires a != b && Fresh(s0)
    ensures Valid(s0, Race(a, b)) && Run(s0, Race(a, b)).sent == map[[] := Sent(THREE, [P1, P2])]
    ensures Run(s0, Race(a, b)).delivered[Out(THREE)] == 2 && Run(s0, Race(a, b)).arrivals[([], 2)] == 1
  {
    ThreeSplits();
    var s1 := Next(s0, Send(THREE));
    FirstArrives(s1, a);
    RaceFrom(Next(s1, Receive(a, [], 0, 0)), a, b);
    var rest := [Receive(a, [], 1, 0)] + ([Receive(b, [], 0, 0)] + ([Finish(a)] + ([Finish(b)] + [])));
    RunCons(s1, Receive(a, [], 0, 0), rest);
    RunCons(s0, Send(THREE), [Receive(a, [], 0, 0)] + rest);
  }

  lemma RaceEvents(a: nat, b: nat)
    ensures SendsFit([SetLimits(1, 2)] + Race(a, b)) && WorkersIn([SetLimits(1, 2)] + Race(a, b), {a, b})
  {
    ThreeSplits();
    var es := [SetLimits(1, 2)] + Race(a, b);
    assert es == [SetLimits(1, 2), Send(THREE), Receive(a, [], 0, 0), Receive(a, [], 1, 0), Receive(b, [], 0, 0), Finish(a), Finish(b)];
  }

  /** From any limits: once they admit THREE, a race delivers it twice although its second fragment arrived once. */
  lemma RaceDeliversTwice(a: nat, b: nat, maxEntries: int, maxNrMessages: uint16)
    requires a != b
    ensures var s0, es := Init(maxEntries, maxNrMessages), [SetLimits(1, 2)] + Race(a, b);
            Valid(s0, es) && SendsFit(es) && WorkersIn(es, {a, b}) && !DeliveriesCovered(Run(s0, es))
  {
    var s0 := Init(maxEntries, maxNrMessages);
    var s1 := Next(s0, SetLimits(1, 2));
    RaceEvents(a, b);
    RaceRuns(s1, a, b);
    RunCons(s0, SetLimits(1, 2), Race(a, b));
    NotCovered(Run(s1, Race(a, b)));
  }

  lemma NotCovered(s: State)
    requires s.sent == map[[] := Sent(THREE, [P1, P2])] && s.delivered[Out(THREE)] == 2 && s.arrivals[([], 2)] == 1
    ensures !DeliveriesCovered(s)
  {
    assert Multipart(s.sent[[]]) && P2.number == 2;
    assert s.delivered[Out(s.sent[[]].m)] > 1 * s.arrivals[([], P2.number)];
  }

  lemma FirstArrives(s: State, w: nat)
    requires s.sent == map[[] := Sent(THREE, [P1, P2])] && s == State(s.sent, s.cache, map[], multiset{}, multiset{}, s.peak)
    requires s.cache.entries == map[] && s.cache.maxEntries > 0 && s.cache.maxNrMessages >= 2
    ensures Enabled(s, Receive(w, [], 0, 0))
    ensures Next(s, Receive(w, [], 0, 0))
            == s.(cache := s.cache.(entries := map[[] := Entry(ENTRY_LIFETIME, 2, map[1 := [7, 8]])]),
                  arrivals := multiset{([], 1)})
  {
    assert P1.count == 2 && P1.number == 1;
    var e := Entry(ENTRY_LIFETIME, 2, map[1 := [7, 8]]);
    assert e.val.Keys == {1};
    assert |e.val| == |e.val.Keys| == 1;
    assert EntryWith(s.cache, P1, 0) == Some(e);
    assert !IsComplete(e);
  }

  /** Whatever the limits, deliveries are covered in all runs of these workers exactly when there is at most one. */
  lemma CoveredIffOneWorker(workers: set<nat>, maxEntries: int, maxNrMessages: uint16)
    ensures (forall es :: Valid(Init(maxEntries, maxNrMessages), es) && SendsFit(es) && WorkersIn(es, workers) ==>
               DeliveriesCovered(Run(Init(maxEntries, maxNrMessages), es)))
            <==> |workers| <= 1
  {
    var s0 := Init(maxEntries, maxNrMessages);
    if |workers| <= 1 {
      forall es | Valid(s0, es) && SendsFit(es) && WorkersIn(es, workers) ensures DeliveriesCovered(Run(s0, es)) {
        WorkersBoundDeliveries(maxEntries, maxNrMessages, es, workers);
        FewerWorkers(Run(s0, es), |workers|);
      }
    } else {
      var a :| a in workers;
      assert workers == {a} + (workers - {a});
      var b :| b in workers - {a};
      RaceDeliversTwice(a, b, maxEntries, maxNrMessages);
      assert WorkersIn([SetLimits(1, 2)] + Race(a, b), workers);
    }
  }

  lemma FewerWorkers(s: State, n: nat)
    requires DeliveredWithin(s, n) && n <= 1
    ensures DeliveredWithin(s, 1)
  {
  }
}

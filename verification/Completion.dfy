/** When a message comes out: exactly at the arrival of its last missing fragment. */
module Completion {
  import opened Bytes
  import opened Options
  import opened Formatter
  import opened Parser
  import opened Network
  import opened Delivery

  /** What one receiving thread handles: packets of any messages, ticks of the cleaning thread, and refused input. */
  datatype Arrival = Packet(p: Part, now: int) | Tick(now: int) | Noise

  function Handle(c: CacheState, a: Arrival): (CacheState, Output) {
    match a
    case Packet(p, now) => if p.count > c.maxNrMessages then (c, Failed) else StepPart(c, p, now)
    case Tick(now) => (Clean(c, now), Pending)
    case Noise => (c, Failed)
  }

  lemma HandleIsParseMessage(c: CacheState, x: Sent, i: nat, now: int, md5: Checksum)
    requires Shaped(x) && i < |x.parts|
    ensures Handle(c, Packet(x.parts[i], now)) == Step(c, Encode(x.parts[i], md5), now, md5)
  {
    PacketDecodes(x, i, c.maxNrMessages, md5);
  }

  function After(c: CacheState, arrivals: seq<Arrival>): CacheState {
    if arrivals == [] then c else Handle(After(c, arrivals[..|arrivals| - 1]), arrivals[|arrivals| - 1]).0
  }

  predicate IsFor(a: Arrival, x: Sent) {
    a.Packet? && a.p.id == x.m.id
  }

  /** The part numbers of x among the arrivals. */
  function Got(arrivals: seq<Arrival>, x: Sent): set<uint16> {
    if arrivals == [] then {}
    else Got(arrivals[..|arrivals| - 1], x)
         + if IsFor(arrivals[|arrivals| - 1], x) then {arrivals[|arrivals| - 1].p.number} else {}
  }

  /** The parts of x since it last came out, and how often it came out. */
  function Rounds(arrivals: seq<Arrival>, x: Sent): (set<uint16>, nat) {
    if arrivals == [] then ({}, 0)
    else
      var (got, n) := Rounds(arrivals[..|arrivals| - 1], x);
      RoundsWith(got, n, arrivals[|arrivals| - 1], x)
  }

  function RoundsWith(got: set<uint16>, n: nat, a: Arrival, x: Sent): (set<uint16>, nat) {
    if !IsFor(a, x) then (got, n)
    else if Whole(x, got + {a.p.number}) then ({}, n + 1)
    else (got + {a.p.number}, n)
  }

  /** When the first of the parts of x since it last came out arrived. */
  function Begun(arrivals: seq<Arrival>, x: Sent): Option<int> {
    if arrivals == [] then None
    else
      var before, a := arrivals[..|arrivals| - 1], arrivals[|arrivals| - 1];
      BegunWith(Begun(before, x), Rounds(before, x).0, a, x)
  }

  function BegunWith(begun: Option<int>, got: set<uint16>, a: Arrival, x: Sent): Option<int> {
    if !IsFor(a, x) || (begun.Some? && !Whole(x, got + {a.p.number})) then begun
    else if Whole(x, got + {a.p.number}) then None
    else Some(a.now)
  }

  /** Thirty seconds and a millisecond, in nanoseconds. */
  const LIFETIME := 30_001_000_000

  /** A tick spares the parts of x if it comes within the lifetime of a fragment from the first of them. */
  predicate Spares(a: Arrival, begun: Option<int>) {
    a.Tick? && begun.Some? ==> a.now <= begun.value + LIFETIME
  }

  /** The arrival brings no foreign packet under x's id, and meets room in the cache. */
  predicate Undisturbed(c: CacheState, a: Arrival, x: Sent) {
    IsFor(a, x) ==> a.p in x.parts && (a.p.count > 1 ==> a.p.id in c.entries || |c.entries| < c.maxEntries)
  }

  predicate AllUndisturbed(c: CacheState, arrivals: seq<Arrival>, x: Sent) {
    arrivals == []
    || (AllUndisturbed(c, arrivals[..|arrivals| - 1], x)
        && Undisturbed(After(c, arrivals[..|arrivals| - 1]), arrivals[|arrivals| - 1], x)
        && Spares(arrivals[|arrivals| - 1], Begun(arrivals[..|arrivals| - 1], x)))
  }

  /** The cache holds exactly these parts of x. */
  predicate Collected(c: CacheState, x: Sent, got: set<uint16>)
    requires x.parts != []
  {
    if got == {} then x.m.id !in c.entries
    else x.m.id in c.entries && EntryOf(c.entries[x.m.id], x) && c.entries[x.m.id].val.Keys == got
  }

  predicate Whole(x: Sent, got: set<uint16>) {
    forall k: uint16 :: 1 <= k <= |x.parts| ==> k in got
  }

  /** A message that arrives in parts, can complete, and is accepted by the limit on parts. */
  predicate Collectable(x: Sent, c: CacheState) {
    Registered(x) && Multipart(x) && Completes(x) && x.parts[0].count <= c.maxNrMessages
  }

  /** One more packet of x while parts are missing. */
  lemma CollectOwn(c: CacheState, x: Sent, i: nat, now: int, got: set<uint16>)
    requires Collectable(x, c) && Collected(c, x, got) && i < |x.parts|
    requires x.m.id in c.entries || |c.entries| < c.maxEntries
    ensures var (c', out) := Handle(c, Packet(x.parts[i], now));
            var got' := got + {x.parts[i].number};
            if Whole(x, got') then out == Out(x.m) && x.m.id !in c'.entries
            else out == Pending && Collected(c', x, got')
  {
    PartOf(x, i);
    var p := x.parts[i];
    var e := EntryWith(c, p, now).value;
    OwnPart(x, c, i, now);
    KeysOfEntry(c, p, now, got);
    CompleteIffWhole(e, x);
    if IsComplete(e) { CompleteEntry(e, x); }
  }

  lemma KeysOfEntry(c: CacheState, p: Part, now: int, got: set<uint16>)
    requires if got == {} then p.id !in c.entries else p.id in c.entries && c.entries[p.id].val.Keys == got
    requires EntryWith(c, p, now).Some?
    ensures EntryWith(c, p, now).value.val.Keys == got + {p.number}
  {
  }

  lemma CompleteIffWhole(e: Entry, x: Sent)
    requires Registered(x) && Completes(x) && EntryOf(e, x)
    ensures IsComplete(e) <==> Whole(x, e.val.Keys)
  {
    KeysFill(e.val, |x.parts|);
    if Whole(x, e.val.Keys) {
      assert Range(|x.parts|) <= e.val.Keys;
      SubsetSize(Range(|x.parts|), e.val.Keys);
    }
  }

  /** What is collected of x ends a lifetime after its first part. */
  predicate Lasts(c: CacheState, x: Sent, begun: Option<int>) {
    (x.m.id in c.entries <==> begun.Some?) && (begun.Some? ==> c.entries[x.m.id].end == begun.value + LIFETIME)
  }

  /** Other messages and ticks that spare x leave what is collected. */
  lemma CollectOther(c: CacheState, x: Sent, a: Arrival, got: set<uint16>, begun: Option<int>)
    requires x.parts != [] && Collected(c, x, got) && Lasts(c, x, begun) && !IsFor(a, x) && Spares(a, begun)
    ensures Collected(Handle(c, a).0, x, got) && Lasts(Handle(c, a).0, x, begun)
  {
  }

  /** A packet of x leaves the end of its entry, or sets that of a new one. */
  lemma OwnLasts(c: CacheState, x: Sent, a: Arrival, begun: Option<int>)
    requires IsFor(a, x) && Lasts(c, x, begun) && x.m.id in Handle(c, a).0.entries
    ensures Lasts(Handle(c, a).0, x, Some(if begun.Some? then begun.value else a.now))
  {
  }

  lemma HandleKeepsLimits(c: CacheState, a: Arrival)
    ensures Handle(c, a).0.maxNrMessages == c.maxNrMessages
  {
  }

  /** Before x comes out for the first time, its round is all that arrived. */
  lemma {:induction false} FirstRound(arrivals: seq<Arrival>, x: Sent)
    requires !Whole(x, Got(arrivals, x))
    ensures Rounds(arrivals, x) == (Got(arrivals, x), 0)
  {
    if arrivals != [] {
      var before := arrivals[..|arrivals| - 1];
      assert Got(before, x) <= Got(arrivals, x) && Got(before, x) + {} == Got(before, x);
      FirstRound(before, x);
    }
  }

  /** As long as a part is missing, the cache holds exactly the parts that arrived. */
  lemma CollectsWhatArrived(c: CacheState, x: Sent, arrivals: seq<Arrival>)
    requires Collectable(x, c) && x.m.id !in c.entries
    requires AllUndisturbed(c, arrivals, x) && !Whole(x, Got(arrivals, x))
    ensures Collected(After(c, arrivals), x, Got(arrivals, x))
    ensures After(c, arrivals).maxNrMessages == c.maxNrMessages
  {
    FirstRound(arrivals, x);
    CollectsInRounds(c, x, arrivals);
  }

  /**
   * Among any other traffic, with repeats and in any order: while a part is missing nothing comes out, at the
   * arrival of the last missing part the message comes out, and its entry is then gone.
   */
  lemma CompletesAtLastMissingPart(c: CacheState, x: Sent, arrivals: seq<Arrival>, last: Arrival)
    requires Collectable(x, c) && x.m.id !in c.entries
    requires AllUndisturbed(c, arrivals + [last], x) && IsFor(last, x)
    requires !Whole(x, Got(arrivals, x))
    ensures var (c', out) := Handle(After(c, arrivals), last);
            After(c, arrivals + [last]) == c'
            && (out == Out(x.m) <==> Whole(x, Got(arrivals + [last], x)))
            && (out == Out(x.m) || out == Pending)
            && (out == Out(x.m) ==> x.m.id !in c'.entries)
  {
    assert (arrivals + [last])[..|arrivals|] == arrivals;
    CollectsWhatArrived(c, x, arrivals);
    var i :| 0 <= i < |x.parts| && x.parts[i] == last.p;
    PartOf(x, i);
    CollectOwn(After(c, arrivals), x, i, last.now, Got(arrivals, x));
  }

  // Any number of rounds

  /** A message in one part or in several that the receiver accepts and can complete. */
  predicate Acceptable(x: Sent, c: CacheState) {
    Registered(x) && Completes(x) && x.parts[0].count <= c.maxNrMessages
  }

  /** One more packet of x: it comes out exactly when no part is missing any more. */
  lemma OwnArrival(c: CacheState, x: Sent, a: Arrival, got: set<uint16>)
    requires Acceptable(x, c) && Collected(c, x, got) && IsFor(a, x) && Undisturbed(c, a, x)
    requires !Multipart(x) ==> got == {}
    ensures var (c', out) := Handle(c, a);
            var got' := got + {a.p.number};
            if Whole(x, got') then out == Out(x.m) && Collected(c', x, {}) else out == Pending && Collected(c', x, got')
    ensures !Multipart(x) ==> Whole(x, got + {a.p.number})
  {
    var i :| 0 <= i < |x.parts| && x.parts[i] == a.p;
    PartOf(x, i);
    if Multipart(x) {
      CollectOwn(c, x, i, a.now, got);
    } else {
      SinglePart(x);
    }
  }

  /** Whatever arrives, the cache holds the parts of x since it last came out, for a lifetime from the first of them. */
  lemma {:induction false} CollectsInRounds(c: CacheState, x: Sent, arrivals: seq<Arrival>)
    requires Acceptable(x, c) && x.m.id !in c.entries && AllUndisturbed(c, arrivals, x)
    ensures Collected(After(c, arrivals), x, Rounds(arrivals, x).0) && Lasts(After(c, arrivals), x, Begun(arrivals, x))
    ensures After(c, arrivals).maxNrMessages == c.maxNrMessages
    ensures !Multipart(x) ==> Rounds(arrivals, x).0 == {}
  {
    if arrivals != [] {
      var before, a := arrivals[..|arrivals| - 1], arrivals[|arrivals| - 1];
      CollectsInRounds(c, x, before);
      HandleKeepsLimits(After(c, before), a);
      if IsFor(a, x) {
        OwnArrival(After(c, before), x, a, Rounds(before, x).0);
        if x.m.id in After(c, arrivals).entries { OwnLasts(After(c, before), x, a, Begun(before, x)); }
      } else {
        CollectOther(After(c, before), x, a, Rounds(before, x).0, Begun(before, x));
      }
    }
  }

  /** How often part k of x arrived. */
  function Copies(arrivals: seq<Arrival>, x: Sent, k: uint16): nat {
    if arrivals == [] then 0
    else
      var a := arrivals[|arrivals| - 1];
      Copies(arrivals[..|arrivals| - 1], x, k) + if IsFor(a, x) && a.p.number == k then 1 else 0
  }

  /** x comes out at most as often as each of its parts arrived, and at least once if all did. */
  lemma {:induction false} RoundsAndCopies(arrivals: seq<Arrival>, x: Sent, k: uint16)
    requires 1 <= k <= |x.parts|
    ensures var (got, n) := Rounds(arrivals, x);
            n + (if k in got then 1 else 0) <= Copies(arrivals, x, k)
            && !Whole(x, got) && (n == 0 ==> got == Got(arrivals, x))
    ensures k in Got(arrivals, x) <==> Copies(arrivals, x, k) > 0
  {
    assert k !in {};
    if arrivals != [] {
      var before, a := arrivals[..|arrivals| - 1], arrivals[|arrivals| - 1];
      RoundsAndCopies(before, x, k);
      assert IsFor(a, x) && Whole(x, Rounds(before, x).0 + {a.p.number}) ==> k in Rounds(before, x).0 + {a.p.number};
    }
  }

  /** Every part arrives, and some part only once: the message comes out once. */
  lemma OnceIfNotRepeated(arrivals: seq<Arrival>, x: Sent, k: uint16)
    requires Whole(x, Got(arrivals, x)) && 1 <= k <= |x.parts| && Copies(arrivals, x, k) == 1
    ensures Rounds(arrivals, x).1 == 1
  {
    RoundsAndCopies(arrivals, x, k);
  }

  // Thirty seconds

  /** Every packet and tick comes at this time or earlier. */
  predicate UpTo(arrivals: seq<Arrival>, now: int) {
    forall k :: 0 <= k < |arrivals| && !arrivals[k].Noise? ==> arrivals[k].now <= now
  }

  /** The clock does not go back. */
  predicate Clocked(arrivals: seq<Arrival>) {
    arrivals == []
    || (Clocked(arrivals[..|arrivals| - 1])
        && (arrivals[|arrivals| - 1].Noise? || UpTo(arrivals[..|arrivals| - 1], arrivals[|arrivals| - 1].now)))
  }

  /** No packet of x comes more than 30 seconds after the first one since x last came out. */
  predicate Prompt(arrivals: seq<Arrival>, x: Sent) {
    arrivals == []
    || (Prompt(arrivals[..|arrivals| - 1], x)
        && (IsFor(arrivals[|arrivals| - 1], x) && Begun(arrivals[..|arrivals| - 1], x).Some? ==>
              arrivals[|arrivals| - 1].now <= Begun(arrivals[..|arrivals| - 1], x).value + 30_000_000_000))
  }

  /** The packets bring nothing foreign under x's id, and meet room in the cache; whatever the ticks. */
  predicate AllWelcome(c: CacheState, arrivals: seq<Arrival>, x: Sent) {
    arrivals == []
    || (AllWelcome(c, arrivals[..|arrivals| - 1], x)
        && Undisturbed(After(c, arrivals[..|arrivals| - 1]), arrivals[|arrivals| - 1], x))
  }

  /** Ticks between packets that come within 30 seconds disturb nothing. */
  lemma {:induction false} PromptIsUndisturbed(c: CacheState, arrivals: seq<Arrival>, x: Sent)
    requires AllWelcome(c, arrivals, x) && Clocked(arrivals) && Prompt(arrivals, x)
    requires Begun(arrivals, x).Some? ==> UpTo(arrivals, Begun(arrivals, x).value + 30_000_000_000)
    ensures AllUndisturbed(c, arrivals, x)
  {
    if arrivals != [] {
      var before, a := arrivals[..|arrivals| - 1], arrivals[|arrivals| - 1];
      assert arrivals[|arrivals| - 1] == a && forall k :: 0 <= k < |before| ==> arrivals[k] == before[k];
      PromptIsUndisturbed(c, before, x);
    }
  }

  /**
   * A message whose parts all arrive within 30 seconds of the first one comes out at its last missing part, whatever
   * other packets and ticks of the cleaning thread come in between.
   */
  lemma CompletesWithin30Seconds(c: CacheState, x: Sent, arrivals: seq<Arrival>, last: Arrival)
    requires Collectable(x, c) && x.m.id !in c.entries
    requires AllWelcome(c, arrivals + [last], x) && Clocked(arrivals + [last]) && IsFor(last, x)
    requires !Whole(x, Got(arrivals, x))
    requires Begun(arrivals, x).Some? ==> last.now <= Begun(arrivals, x).value + 30_000_000_000
    ensures var (c', out) := Handle(After(c, arrivals), last);
            if Whole(x, Got(arrivals + [last], x)) then out == Out(x.m) && x.m.id !in c'.entries else out == Pending
  {
    assert (arrivals + [last])[..|arrivals|] == arrivals;
    FirstIsPrompt(arrivals, x);
    PromptIsUndisturbed(c, arrivals, x);
    CompletesAtLastMissingPart(c, x, arrivals, last);
  }

  /** Until x comes out, all its packets are measured by the first. */
  lemma {:induction false} FirstIsPrompt(arrivals: seq<Arrival>, x: Sent)
    requires !Whole(x, Got(arrivals, x))
    requires Begun(arrivals, x).Some? ==> UpTo(arrivals, Begun(arrivals, x).value + 30_000_000_000)
    ensures Prompt(arrivals, x)
  {
    if arrivals != [] {
      var before, a := arrivals[..|arrivals| - 1], arrivals[|arrivals| - 1];
      assert arrivals[|arrivals| - 1] == a && forall k :: 0 <= k < |before| ==> arrivals[k] == before[k];
      FirstRound(arrivals, x);
      FirstRound(before, x);
      FirstIsPrompt(before, x);
    }
  }

  /** What is left of a message is gone after a tick more than 30.001 seconds behind its first part. */
  lemma ExpiresAfterLifetime(c: CacheState, x: Sent, arrivals: seq<Arrival>, now: int)
    requires Acceptable(x, c) && x.m.id !in c.entries && AllUndisturbed(c, arrivals, x)
    requires Begun(arrivals, x).Some? && now > Begun(arrivals, x).value + 30_001_000_000
    ensures x.m.id in After(c, arrivals).entries && x.m.id !in Handle(After(c, arrivals), Tick(now)).0.entries
  {
    CollectsInRounds(c, x, arrivals);
  }

  /**
   * While an entry lasts, its first part decides how many parts it declares and when it may be dropped, and of its parts
   * only the one that arrives can change.
   */
  lemma EntryIsKept(c: CacheState, a: Arrival, id: Bytes, k: uint16)
    requires id in c.entries && c.entries[id].len > 0
    ensures var c' := Handle(c, a).0;
            id in c'.entries ==>
              c'.entries[id].len == c.entries[id].len && c'.entries[id].end == c.entries[id].end
              && (!(a.Packet? && a.p.id == id && a.p.number == k) ==>
                    (k in c'.entries[id].val <==> k in c.entries[id].val)
                    && (k in c.entries[id].val ==> c'.entries[id].val[k] == c.entries[id].val[k]))
  {
  }
}

/** src/logging/repetition.go: repeated messages are counted and summarised instead of written. */
module Repetition {
  import opened Bytes
  import opened Options

  const MAX_REPEAT_ENTRIES := 1024

  /** repeatKey: two calls repeat each other when body or template, level and attributes agree. */
  datatype Key = Key(body: Bytes, level: nat, attrs: Bytes, template: bool)

  datatype Entry = Entry(count: nat, lastEmitted: int, lastSeen: int)

  /** An armed timer; `id` tells it from timers that were stopped or have fired. */
  datatype Timer = Timer(id: nat, deadline: int)

  /** What is written: a message in full, or a summary of its repeats. */
  datatype Written = Full(key: Key) | Summary(key: Key, count: nat)

  /** The cache and its output; `calls` counts the messages logged under each key. */
  datatype State = State(
    entries: map<Key, Entry>,
    interval: int,
    timer: Option<Timer>,
    timers: nat, // ever armed
    calls: multiset<Key>,
    output: seq<Written>)

  function Initial(interval: int): State {
    State(map[], interval, None, 0, multiset{}, [])
  }

  /** Go visits a map in any order: `order` is the order of one such visit. */
  predicate Lists(order: seq<Key>, entries: map<Key, Entry>) {
    (forall k :: k in order ==> k in entries) && (forall k :: k in entries ==> k in order)
  }

  function Flush(s: State, k: Key, now: int): State {
    if k !in s.entries || s.entries[k].count == 0 then s
    else
      var e := s.entries[k];
      s.(output := s.output + [Summary(k, e.count)], entries := s.entries[k := e.(count := 0, lastEmitted := now)])
  }

  function FlushAll(s: State, order: seq<Key>, now: int): State {
    if order == [] then s else Flush(FlushAll(s, order[..|order| - 1], now), order[|order| - 1], now)
  }

  /** resetRepetitionLocked */
  function Reset(s: State, order: seq<Key>, now: int): State {
    FlushAll(s.(timer := None), order, now).(entries := map[])
  }

  /** When an entry needs the timer: to report its count, or to be forgotten. */
  function Due(e: Entry, interval: int): int {
    if e.count > 0 then e.lastEmitted + interval else e.lastSeen + interval
  }

  function Soonest(entries: map<Key, Entry>, interval: int, order: seq<Key>, latest: int): int
    requires forall k :: k in order ==> k in entries
  {
    if order == [] then latest
    else
      var rest := Soonest(entries, interval, order[..|order| - 1], latest);
      var due := Due(entries[order[|order| - 1]], interval);
      if due < rest then due else rest
  }

  /** scheduleRepeatTimerLocked */
  function Schedule(s: State, order: seq<Key>, now: int): State
    requires Lists(order, s.entries)
  {
    if s.timer.Some? || s.entries == map[] then s
    else
      s.(timer := Some(Timer(s.timers, Soonest(s.entries, s.interval, order, now + s.interval))), timers := s.timers + 1)
  }

  function Forget(s: State, k: Key): State {
    s.(entries := s.entries - {k})
  }

  /** The orders in which one call visits the map, and the entry it evicts. */
  datatype Choice = Choice(order: seq<Key>, victim: Key)

  predicate Oldest(entries: map<Key, Entry>, victim: Key) {
    victim in entries && forall k :: k in entries ==> entries[victim].lastSeen <= entries[k].lastSeen
  }

  /** An entry not seen for an interval is closed before the key is looked up again. */
  function Expire(s: State, key: Key, now: int): State {
    if key in s.entries && now - s.entries[key].lastSeen >= s.interval then Forget(Flush(s, key, now), key) else s
  }

  function Evict(s: State, victim: Key, now: int): State {
    if |s.entries| >= MAX_REPEAT_ENTRIES then Forget(Flush(s, victim, now), victim) else s
  }

  function WrittenInFull(s: State, key: Key): State {
    s.(output := s.output + [Full(key)])
  }

  function Insert(s: State, key: Key, now: int): State {
    WrittenInFull(s, key).(entries := s.entries[key := Entry(0, now, now)])
  }

  function Count(s: State, key: Key, now: int): State
    requires key in s.entries
  {
    var e := s.entries[key];
    s.(entries := s.entries[key := e.(count := e.count + 1, lastSeen := now)])
  }

  function Repeat(s: State, key: Key, now: int): State
    requires key in s.entries
  {
    if now - s.entries[key].lastEmitted >= s.interval then Flush(Count(s, key, now), key, now) else Count(s, key, now)
  }

  /** The cache after one call, up to the timer. */
  function Counted(s: State, key: Key, now: int, victim: Key): State {
    var s1 := Expire(s, key, now);
    if key in s1.entries then Repeat(s1, key, now) else Insert(Evict(s1, victim, now), key, now)
  }

  predicate Allows(s: State, key: Key, fatal: bool, now: int, c: Choice) {
    if s.interval == 0 || fatal then Lists(c.order, s.entries)
    else
      (|Expire(s, key, now).entries| >= MAX_REPEAT_ENTRIES && key !in Expire(s, key, now).entries ==>
         Oldest(Expire(s, key, now).entries, c.victim))
      && Lists(c.order, Counted(s, key, now, c.victim).entries)
  }

  function Called(s: State, key: Key): State {
    s.(calls := s.calls[key := s.calls[key] + 1])
  }

  /** suppressLocked; true if the message is not to be written. A message that is written goes out in full. */
  function Suppress(s: State, key: Key, fatal: bool, now: int, c: Choice): (State, bool)
    requires Allows(s, key, fatal, now, c)
  {
    if s.interval == 0 || fatal then (Called(WrittenInFull(Reset(s, c.order, now), key), key), false)
    else
      (Called(Schedule(Counted(s, key, now, c.victim), c.order, now), key), key in Expire(s, key, now).entries)
  }

  /** One turn of the callback's loop. */
  function Visit(s: State, k: Key, now: int): State {
    if k !in s.entries then s
    else
      var s1 := if now - s.entries[k].lastEmitted >= s.interval then Flush(s, k, now) else s;
      if s1.entries[k].count == 0 && now - s1.entries[k].lastSeen >= s.interval then Forget(s1, k) else s1
  }

  function VisitAll(s: State, order: seq<Key>, now: int): State {
    if order == [] then s else Visit(VisitAll(s, order[..|order| - 1], now), order[|order| - 1], now)
  }

  predicate AllowsFire(s: State, id: nat, now: int, visit: seq<Key>, order: seq<Key>) {
    s.timer.Some? && s.timer.value.id == id ==>
      Lists(visit, s.entries) && Lists(order, VisitAll(s.(timer := None), visit, now).entries)
  }

  /** The callback of timer `id`. */
  function Fire(s: State, id: nat, now: int, visit: seq<Key>, order: seq<Key>): State
    requires AllowsFire(s, id, now, visit, order)
  {
    if s.timer == None || s.timer.value.id != id then s
    else Schedule(VisitAll(s.(timer := None), visit, now), order, now)
  }

  // What every call keeps

  function Pending(s: State, k: Key): nat {
    if k in s.entries then s.entries[k].count else 0
  }

  function FullsOf(output: seq<Written>, k: Key): nat {
    if output == [] then 0
    else
      var w := output[|output| - 1];
      FullsOf(output[..|output| - 1], k) + if w == Full(k) then 1 else 0
  }

  /** The repeats that summaries have reported. */
  function RepeatsOf(output: seq<Written>, k: Key): nat {
    if output == [] then 0
    else
      var w := output[|output| - 1];
      RepeatsOf(output[..|output| - 1], k) + if w.Summary? && w.key == k then w.count else 0
  }

  lemma WriteCounts(output: seq<Written>, w: Written, k: Key)
    ensures FullsOf(output + [w], k) == FullsOf(output, k) + if w == Full(k) then 1 else 0
    ensures RepeatsOf(output + [w], k) == RepeatsOf(output, k) + if w.Summary? && w.key == k then w.count else 0
  {
    assert (output + [w])[..|output|] == output;
  }

  /** No count is lost: calls are messages in full, repeats reported, and repeats yet to be reported. */
  predicate Conserved(s: State, k: Key) {
    s.calls[k] == FullsOf(s.output, k) + RepeatsOf(s.output, k) + Pending(s, k)
  }

  /** An entry without repeats was emitted when last seen or later, one with repeats before. */
  predicate Timely(e: Entry, now: int) {
    e.lastEmitted <= now && e.lastSeen <= now && if e.count == 0 then e.lastSeen <= e.lastEmitted else e.lastEmitted <= e.lastSeen
  }

  predicate Punctual(s: State, now: int) {
    && |s.entries| <= MAX_REPEAT_ENTRIES
    && (s.interval == 0 ==> s.entries == map[])
    && s.interval >= 0
    && forall k :: k in s.entries ==> Timely(s.entries[k], now)
  }

  /** A timer is armed exactly while the cache is not empty, and it is due no later than any entry. */
  predicate Armed(s: State, now: int) {
    (s.timer.Some? <==> s.entries != map[]) && InTime(s, now)
  }

  predicate InTime(s: State, now: int) {
    s.timer.Some? ==> Early(s, s.timer.value.deadline, now)
  }

  predicate Early(s: State, deadline: int, now: int) {
    deadline <= now + s.interval && forall k :: k in s.entries ==> deadline <= Due(s.entries[k], s.interval)
  }

  lemma FlushFacts(s: State, k: Key, now: int)
    ensures var s' := Flush(s, k, now);
            s'.entries.Keys == s.entries.Keys && s' == s.(entries := s'.entries, output := s'.output)
            && Pending(s', k) == 0
            && forall x :: x != k && x in s.entries ==> s'.entries[x] == s.entries[x]
  {
  }

  lemma FlushConserves(s: State, k: Key, now: int, x: Key)
    requires Conserved(s, x)
    ensures Conserved(Flush(s, k, now), x)
    ensures Pending(Flush(s, k, now), x) == if x == k then 0 else Pending(s, x)
  {
    if k in s.entries { WriteCounts(s.output, Summary(k, s.entries[k].count), x); }
  }

  lemma {:induction false} FlushAllConserves(s: State, order: seq<Key>, now: int, x: Key)
    requires Conserved(s, x)
    ensures Conserved(FlushAll(s, order, now), x)
    ensures Pending(FlushAll(s, order, now), x) == if x in order then 0 else Pending(s, x)
  {
    if order != [] {
      var n := |order| - 1;
      FlushAllConserves(s, order[..n], now, x);
      FlushConserves(FlushAll(s, order[..n], now), order[n], now, x);
      assert order == order[..n] + [order[n]];
    }
  }

  lemma ResetConserves(s: State, order: seq<Key>, now: int, x: Key)
    requires Conserved(s, x) && Lists(order, s.entries)
    ensures Conserved(Reset(s, order, now), x)
  {
    FlushAllConserves(s.(timer := None), order, now, x);
  }

  lemma ForgetConserves(s: State, k: Key, now: int, x: Key)
    requires Conserved(s, x)
    ensures Conserved(Forget(Flush(s, k, now), k), x)
  {
    FlushConserves(s, k, now, x);
  }

  /** One call more, written in full or counted. */
  lemma CountedConserves(s: State, key: Key, now: int, victim: Key, x: Key)
    requires Conserved(s, x)
    ensures Conserved(Called(Counted(s, key, now, victim), key), x)
  {
    var s1 := Expire(s, key, now);
    assert Conserved(s1, x) by { ForgetConserves(s, key, now, x); }
    if key in s1.entries {
      RepeatConserves(s1, key, now, x);
    } else {
      assert Conserved(Evict(s1, victim, now), x) by { ForgetConserves(s1, victim, now, x); }
      InsertConserves(Evict(s1, victim, now), key, now, x);
    }
  }

  lemma RepeatConserves(s: State, key: Key, now: int, x: Key)
    requires Conserved(s, x) && key in s.entries
    ensures Conserved(Called(Repeat(s, key, now), key), x)
  {
    FlushConserves(Called(Count(s, key, now), key), key, now, x);
  }

  lemma InsertConserves(s: State, key: Key, now: int, x: Key)
    requires Conserved(s, x) && (key in s.entries ==> s.entries[key].count == 0)
    ensures Conserved(Called(Insert(s, key, now), key), x)
  {
    WriteCounts(s.output, Full(key), x);
  }

  lemma SuppressConserves(s: State, key: Key, fatal: bool, now: int, c: Choice, x: Key)
    requires Conserved(s, x) && Allows(s, key, fatal, now, c)
    ensures Conserved(Suppress(s, key, fatal, now, c).0, x)
  {
    if s.interval == 0 || fatal {
      ResetConserves(s, c.order, now, x);
      WriteCounts(Reset(s, c.order, now).output, Full(key), x);
    } else {
      CountedConserves(s, key, now, c.victim, x);
    }
  }

  lemma {:induction false} VisitAllConserves(s: State, order: seq<Key>, now: int, x: Key)
    requires Conserved(s, x)
    ensures Conserved(VisitAll(s, order, now), x)
  {
    if order != [] {
      var before, k := VisitAll(s, order[..|order| - 1], now), order[|order| - 1];
      VisitAllConserves(s, order[..|order| - 1], now, x);
      FlushConserves(before, k, now, x);
    }
  }

  lemma FireConserves(s: State, id: nat, now: int, visit: seq<Key>, order: seq<Key>, x: Key)
    requires Conserved(s, x) && AllowsFire(s, id, now, visit, order)
    ensures Conserved(Fire(s, id, now, visit, order), x)
  {
    VisitAllConserves(s.(timer := None), visit, now, x);
  }

  // Timeliness

  lemma {:induction false} SoonestIsEarly(entries: map<Key, Entry>, interval: int, order: seq<Key>, latest: int)
    requires forall k :: k in order ==> k in entries
    ensures var d := Soonest(entries, interval, order, latest);
            d <= latest && forall k :: k in order ==> d <= Due(entries[k], interval)
  {
    if order != [] {
      SoonestIsEarly(entries, interval, order[..|order| - 1], latest);
      assert order == order[..|order| - 1] + [order[|order| - 1]];
    }
  }

  lemma ScheduleArms(s: State, order: seq<Key>, now: int)
    requires Lists(order, s.entries) && Punctual(s, now) && InTime(s, now) && (s.timer.Some? ==> s.entries != map[])
    ensures Punctual(Schedule(s, order, now), now) && Armed(Schedule(s, order, now), now)
  {
    SoonestIsEarly(s.entries, s.interval, order, now + s.interval);
  }

  /** A flush may only put off when an entry is due. */
  lemma FlushIsPunctual(s: State, k: Key, now: int)
    requires Punctual(s, now) && InTime(s, now)
    ensures Punctual(Flush(s, k, now), now) && InTime(Flush(s, k, now), now)
  {
    FlushFacts(s, k, now);
  }

  lemma ForgetIsPunctual(s: State, k: Key, now: int)
    requires Punctual(s, now) && InTime(s, now)
    ensures Punctual(Forget(s, k), now) && InTime(Forget(s, k), now)
    ensures k in s.entries ==> |Forget(s, k).entries| == |s.entries| - 1
  {
    assert Forget(s, k).entries.Keys == s.entries.Keys - {k};
  }

  lemma InsertIsPunctual(s: State, key: Key, now: int)
    requires Punctual(s, now) && InTime(s, now) && s.interval > 0 && |s.entries| < MAX_REPEAT_ENTRIES
    ensures Punctual(Insert(s, key, now), now) && InTime(Insert(s, key, now), now)
  {
    assert Insert(s, key, now).entries.Keys == s.entries.Keys + {key};
  }

  /** Counting a repeat moves an entry's due time from its last sight to its last emission, which is no earlier. */
  lemma CountIsPunctual(s: State, key: Key, now: int)
    requires Punctual(s, now) && InTime(s, now) && key in s.entries
    ensures Punctual(Count(s, key, now), now) && InTime(Count(s, key, now), now)
  {
    assert Count(s, key, now).entries.Keys == s.entries.Keys;
  }

  lemma RepeatIsPunctual(s: State, key: Key, now: int)
    requires Punctual(s, now) && InTime(s, now) && key in s.entries
    ensures var s' := Repeat(s, key, now);
            Punctual(s', now) && InTime(s', now) && key in s'.entries && s'.timer == s.timer && s'.interval == s.interval
  {
    CountIsPunctual(s, key, now);
    FlushIsPunctual(Count(s, key, now), key, now);
    FlushFacts(Count(s, key, now), key, now);
  }

  lemma CloseIsPunctual(s: State, k: Key, now: int)
    requires Punctual(s, now) && InTime(s, now)
    ensures var s' := Forget(Flush(s, k, now), k);
            Punctual(s', now) && InTime(s', now) && s'.timer == s.timer && s'.interval == s.interval
            && (k in s.entries ==> |s'.entries| == |s.entries| - 1)
  {
    FlushIsPunctual(s, k, now);
    FlushFacts(s, k, now);
    ForgetIsPunctual(Flush(s, k, now), k, now);
    assert Flush(s, k, now).entries.Keys == s.entries.Keys;
    assert |Flush(s, k, now).entries| == |Flush(s, k, now).entries.Keys|;
  }

  lemma CountedIsPunctual(s: State, key: Key, now: int, victim: Key)
    requires Punctual(s, now) && InTime(s, now) && s.interval > 0
    requires var s1 := Expire(s, key, now);
             |s1.entries| >= MAX_REPEAT_ENTRIES && key !in s1.entries ==> victim in s1.entries
    ensures var s' := Counted(s, key, now, victim);
            Punctual(s', now) && InTime(s', now) && key in s'.entries && s'.timer == s.timer && s'.interval == s.interval
  {
    CloseIsPunctual(s, key, now);
    var s1 := Expire(s, key, now);
    if key in s1.entries {
      RepeatIsPunctual(s1, key, now);
    } else {
      CloseIsPunctual(s1, victim, now);
      InsertIsPunctual(Evict(s1, victim, now), key, now);
    }
  }

  lemma {:induction false} FlushAllFacts(s: State, order: seq<Key>, now: int)
    ensures FlushAll(s, order, now).timer == s.timer && FlushAll(s, order, now).interval == s.interval
    ensures FlushAll(s, order, now).timers == s.timers
  {
    if order != [] {
      FlushAllFacts(s, order[..|order| - 1], now);
      FlushFacts(FlushAll(s, order[..|order| - 1], now), order[|order| - 1], now);
    }
  }

  lemma ResetFacts(s: State, order: seq<Key>, now: int)
    ensures Reset(s, order, now).timer == None && Reset(s, order, now).entries == map[]
    ensures Reset(s, order, now).interval == s.interval && Reset(s, order, now).timers == s.timers
  {
    FlushAllFacts(s.(timer := None), order, now);
  }

  /** The cache stays bounded and its timer in time, whatever is logged. */
  lemma SuppressIsPunctual(s: State, key: Key, fatal: bool, now: int, c: Choice)
    requires Punctual(s, now) && Armed(s, now) && Allows(s, key, fatal, now, c)
    ensures Punctual(Suppress(s, key, fatal, now, c).0, now) && Armed(Suppress(s, key, fatal, now, c).0, now)
  {
    if s.interval == 0 || fatal {
      ResetFacts(s, c.order, now);
    } else {
      CountedIsPunctual(s, key, now, c.victim);
      ScheduleArms(Counted(s, key, now, c.victim), c.order, now);
    }
  }

  lemma VisitFacts(s: State, k: Key, now: int, x: Key)
    requires Punctual(s, now) && s.timer == None
    ensures var s' := Visit(s, k, now);
            Punctual(s', now) && s'.timer == None && s'.interval == s.interval
            && (x in s'.entries ==> x in s.entries && if x == k then Due(s'.entries[x], s.interval) > now
                                                     else s'.entries[x] == s.entries[x])
  {
    FlushIsPunctual(s, k, now);
    FlushFacts(s, k, now);
    ForgetIsPunctual(Flush(s, k, now), k, now);
    ForgetIsPunctual(s, k, now);
  }

  /** The callback leaves no visited entry overdue. */
  lemma {:induction false} VisitAllFacts(s: State, order: seq<Key>, now: int, x: Key)
    requires Punctual(s, now) && s.timer == None
    ensures var s' := VisitAll(s, order, now);
            Punctual(s', now) && s'.timer == None && s'.interval == s.interval
            && (x in s'.entries ==> x in s.entries && (x in order ==> Due(s'.entries[x], s.interval) > now))
  {
    if order != [] {
      var n := |order| - 1;
      VisitAllFacts(s, order[..n], now, x);
      VisitFacts(VisitAll(s, order[..n], now), order[n], now, x);
      assert x in order ==> x in order[..n] || x == order[n];
    }
  }

  /** A timer that fires reports every overdue count and forgets every idle entry, and the next one is armed in time. */
  lemma FireIsPunctual(s: State, id: nat, now: int, visit: seq<Key>, order: seq<Key>, x: Key)
    requires Punctual(s, now) && Armed(s, now) && AllowsFire(s, id, now, visit, order)
    ensures var s' := Fire(s, id, now, visit, order);
            Punctual(s', now) && Armed(s', now)
            && (s.timer.Some? && s.timer.value.id == id && x in s'.entries ==> Due(s'.entries[x], s'.interval) > now)
  {
    if s.timer.Some? && s.timer.value.id == id {
      VisitAllFacts(s.(timer := None), visit, now, x);
      ScheduleArms(VisitAll(s.(timer := None), visit, now), order, now);
    }
  }

  // Runs

  datatype Event =
    | Log(key: Key, fatal: bool, choice: Choice)
    | Expired(id: nat, visit: seq<Key>, order: seq<Key>)
    | FlushRepeated(order: seq<Key>)                // also every call that reconfigures the logger
    | SetRepeatInterval(interval: int, order: seq<Key>)

  datatype Timed = At(now: int, event: Event)

  predicate Enabled(s: State, now: int, e: Event) {
    match e
    case Log(key, fatal, c) => Allows(s, key, fatal, now, c)
    case Expired(id, visit, order) => AllowsFire(s, id, now, visit, order)
    case FlushRepeated(order) => Lists(order, s.entries)
    case SetRepeatInterval(interval, order) => interval < 0 || Lists(order, s.entries)
  }

  function Next(s: State, now: int, e: Event): State
    requires Enabled(s, now, e)
  {
    match e
    case Log(key, fatal, c) => Suppress(s, key, fatal, now, c).0
    case Expired(id, visit, order) => Fire(s, id, now, visit, order)
    case FlushRepeated(order) => Reset(s, order, now)
    case SetRepeatInterval(interval, order) => if interval < 0 then s else Reset(s, order, now).(interval := interval)
  }

  /** A run whose clock does not go back. */
  predicate Runs(start: int, s0: State, es: seq<Timed>, s: State)
    decreases |es|
  {
    if es == [] then s == s0
    else
      && start <= es[0].now && Enabled(s0, es[0].now, es[0].event)
      && Runs(es[0].now, Next(s0, es[0].now, es[0].event), es[1..], s)
  }

  lemma Later(s: State, now: int, later: int)
    requires Punctual(s, now) && Armed(s, now) && now <= later
    ensures Punctual(s, later) && Armed(s, later)
  {
  }

  lemma NextKeeps(s: State, now: int, e: Event, x: Key)
    requires Conserved(s, x) && Punctual(s, now) && Armed(s, now) && Enabled(s, now, e)
    ensures Conserved(Next(s, now, e), x) && Punctual(Next(s, now, e), now) && Armed(Next(s, now, e), now)
  {
    match e
    case Log(key, fatal, c) =>
      SuppressConserves(s, key, fatal, now, c, x);
      SuppressIsPunctual(s, key, fatal, now, c);
    case Expired(id, visit, order) =>
      FireConserves(s, id, now, visit, order, x);
      FireIsPunctual(s, id, now, visit, order, x);
    case FlushRepeated(order) =>
      ResetConserves(s, order, now, x);
      ResetFacts(s, order, now);
    case SetRepeatInterval(interval, order) =>
      if interval >= 0 {
        ResetConserves(s, order, now, x);
        ResetFacts(s, order, now);
      }
  }

  lemma {:induction false} RunKeeps(start: int, s0: State, es: seq<Timed>, s: State, x: Key)
    requires Conserved(s0, x) && Punctual(s0, start) && Armed(s0, start) && Runs(start, s0, es, s)
    ensures Conserved(s, x)
    ensures var end := if es == [] then start else es[|es| - 1].now;
            Punctual(s, end) && Armed(s, end)
    decreases |es|
  {
    if es != [] {
      Later(s0, start, es[0].now);
      NextKeeps(s0, es[0].now, es[0].event, x);
      RunKeeps(es[0].now, Next(s0, es[0].now, es[0].event), es[1..], s, x);
    }
  }

  /**
   * Over any run of messages, timers and resets: every message under a key is written in full, reported by a
   * summary, or still counted; the cache holds at most 1024 keys; and while it holds any, a timer is armed that
   * is due no later than each of them.
   */
  lemma NothingIsLost(interval: int, start: int, es: seq<Timed>, s: State, x: Key)
    requires interval >= 0 && Runs(start, Initial(interval), es, s)
    ensures s.calls[x] == FullsOf(s.output, x) + RepeatsOf(s.output, x) + Pending(s, x)
    ensures |s.entries| <= MAX_REPEAT_ENTRIES
    ensures x in s.entries ==> s.timer.Some? && s.timer.value.deadline <= Due(s.entries[x], s.interval)
  {
    RunKeeps(start, Initial(interval), es, s, x);
  }
}

/**
 * Which messages are suppressed, and when their repeats are reported, judged by the times of the calls and of what was
 * written, in every run.
 */
module Suppression {
  import opened Options
  import opened Repetition

  /** The time of the last call of a key, unless it was reset or evicted since, and of the last output for it. */
  datatype Memory = Memory(called: Option<int>, emitted: Option<int>)

  const NOTHING := Memory(None, None)

  /** Something was written for the key. */
  predicate Emits(s: State, s': State, k: Key) {
    FullsOf(s'.output, k) != FullsOf(s.output, k) || RepeatsOf(s'.output, k) != RepeatsOf(s.output, k)
  }

  /** Suppression is on for a call. */
  predicate Counting(s: State, fatal: bool) {
    s.interval > 0 && !fatal
  }

  /** A call of another key that is not in the cache finds it full, with k seen least recently. */
  predicate Evicts(s: State, key: Key, c: Choice, k: Key) {
    k != key && key !in s.entries && |s.entries| >= 1024 && c.victim == k
  }

  function CalledAfter(s: State, now: int, e: Event, k: Key, called: Option<int>): Option<int> {
    match e
    case Log(key, fatal, c) =>
      if !Counting(s, fatal) then None
      else if key == k then Some(now)
      else if Evicts(s, key, c, k) then None
      else called
    case Expired(_, _, _) => called
    case FlushRepeated(_) => None
    case SetRepeatInterval(interval, _) => if interval < 0 then called else None
  }

  function Remembered(s: State, now: int, e: Event, k: Key, m: Memory): Memory
    requires Enabled(s, now, e)
  {
    Memory(CalledAfter(s, now, e, k, m.called), if Emits(s, Next(s, now, e), k) then Some(now) else m.emitted)
  }

  /** The memory of key k after a run. */
  function MemoryOf(start: int, s0: State, es: seq<Timed>, s: State, k: Key, m: Memory): Memory
    requires Runs(start, s0, es, s)
    decreases |es|
  {
    if es == [] then m
    else
      var At(now, e) := es[0];
      MemoryOf(now, Next(s0, now, e), es[1..], s, k, Remembered(s0, now, e, k, m))
  }

  /** The interval in force: the last one set that is not negative. */
  function IntervalOf(interval: int, es: seq<Timed>): int
    decreases |es|
  {
    if es == [] then interval
    else
      IntervalOf(if es[0].event.SetRepeatInterval? && es[0].event.interval >= 0 then es[0].event.interval else interval, es[1..])
  }

  /** The cache knows what is remembered, or has forgotten what is an interval old. */
  predicate Tracks(s: State, k: Key, m: Memory, now: int) {
    && (k in s.entries ==> m == Memory(Some(s.entries[k].lastSeen), Some(s.entries[k].lastEmitted)))
    && (k !in s.entries && m.called.Some? ==> now - m.called.value >= s.interval)
    && (m.called.Some? ==> m.called.value <= now)
  }

  // What is written when

  lemma FlushEmits(s: State, key: Key, now: int, k: Key)
    ensures var s' := Flush(s, key, now);
            FullsOf(s'.output, k) == FullsOf(s.output, k)
            && RepeatsOf(s'.output, k) == RepeatsOf(s.output, k) + if key == k then Pending(s, k) else 0
  {
    if key in s.entries { WriteCounts(s.output, Summary(key, s.entries[key].count), k); }
  }

  lemma {:induction false} FlushAllEmits(s: State, order: seq<Key>, now: int, k: Key)
    ensures FullsOf(FlushAll(s, order, now).output, k) == FullsOf(s.output, k)
  {
    if order != [] {
      FlushAllEmits(s, order[..|order| - 1], now, k);
      FlushEmits(FlushAll(s, order[..|order| - 1], now), order[|order| - 1], now, k);
    }
  }

  lemma {:induction false} VisitAllEmits(s: State, order: seq<Key>, now: int, k: Key)
    ensures FullsOf(VisitAll(s, order, now).output, k) == FullsOf(s.output, k)
  {
    if order != [] {
      VisitAllEmits(s, order[..|order| - 1], now, k);
      FlushEmits(VisitAll(s, order[..|order| - 1], now), order[|order| - 1], now, k);
    }
  }

  /** A call of a key that is counted or written anew, step by step. */
  lemma CountedEmits(s: State, key: Key, now: int, victim: Key, k: Key)
    requires s.interval > 0
    ensures var s' := Counted(s, key, now, victim);
            var repeats := key in s.entries && now - s.entries[key].lastSeen < s.interval;
            FullsOf(s'.output, k) == FullsOf(s.output, k) + (if key == k && !repeats then 1 else 0)
            && (key in Expire(s, key, now).entries <==> repeats)
  {
    FlushEmits(s, key, now, k);
    var s1 := Expire(s, key, now);
    if key in s1.entries {
      FlushEmits(Count(s1, key, now), key, now, k);
    } else {
      FlushEmits(s1, victim, now, k);
      WriteCounts(Evict(s1, victim, now).output, Full(key), k);
    }
  }

  /** What an emission for k, if any, makes of the memory. */
  function Noted(s: State, s': State, k: Key, now: int, called: Option<int>, emitted: Option<int>): Memory {
    Memory(called, if Emits(s, s', k) then Some(now) else emitted)
  }

  // Every event keeps track

  /** A call of k itself that is counted. */
  lemma RepeatTracks(s: State, k: Key, now: int, m: Memory)
    requires k in s.entries && s.interval > 0 && Tracks(s, k, m, now)
    ensures var s' := Repeat(s, k, now);
            Tracks(s', k, Noted(s, s', k, now, Some(now), m.emitted), now) && k in s'.entries && s'.interval == s.interval
  {
    FlushEmits(Count(s, k, now), k, now, k);
    FlushFacts(Count(s, k, now), k, now);
  }

  /** A call of k itself that is written in full. */
  lemma InsertTracks(s: State, s1: State, k: Key, now: int, m: Memory)
    requires s1.interval == s.interval > 0 && FullsOf(s1.output, k) == FullsOf(s.output, k)
    ensures var s' := Insert(s1, k, now);
            Tracks(s', k, Noted(s, s', k, now, Some(now), m.emitted), now) && k in s'.entries && s'.interval == s.interval
  {
    WriteCounts(s1.output, Full(k), k);
  }

  lemma OwnCallTracks(s: State, k: Key, now: int, victim: Key, m: Memory)
    requires s.interval > 0 && Tracks(s, k, m, now)
    ensures var s' := Counted(s, k, now, victim);
            Tracks(s', k, Noted(s, s', k, now, Some(now), m.emitted), now) && k in s'.entries && s'.interval == s.interval
  {
    var s1 := Expire(s, k, now);
    if k in s1.entries {
      RepeatTracks(s, k, now, m);
    } else {
      FlushEmits(s, k, now, k);
      FlushFacts(s, k, now);
      FlushEmits(s1, victim, now, k);
      FlushFacts(s1, victim, now);
      InsertTracks(s, Evict(s1, victim, now), k, now, m);
    }
  }

  /** Nothing about k has changed. */
  predicate Untouched(s: State, s': State, k: Key) {
    && s'.interval == s.interval && (k in s'.entries <==> k in s.entries) && (k in s.entries ==> s'.entries[k] == s.entries[k])
    && FullsOf(s'.output, k) == FullsOf(s.output, k) && RepeatsOf(s'.output, k) == RepeatsOf(s.output, k)
  }

  lemma FlushUntouched(s: State, x: Key, now: int, k: Key)
    requires k != x
    ensures Untouched(s, Flush(s, x, now), k) && |Flush(s, x, now).entries| == |s.entries|
  {
    FlushFacts(s, x, now);
    FlushEmits(s, x, now, k);
    assert |Flush(s, x, now).entries| == |Flush(s, x, now).entries.Keys| == |s.entries.Keys|;
  }

  lemma CloseUntouched(s: State, x: Key, now: int, k: Key)
    requires k != x
    ensures var s' := Forget(Flush(s, x, now), x);
            Untouched(s, s', k) && |s'.entries| == |s.entries| - if x in s.entries then 1 else 0
  {
    FlushUntouched(s, x, now, k);
    FlushFacts(s, x, now);
    assert Forget(Flush(s, x, now), x).entries.Keys == s.entries.Keys - {x};
    assert |s.entries| == |s.entries.Keys|;
  }

  lemma RepeatUntouched(s: State, x: Key, now: int, k: Key)
    requires k != x && x in s.entries
    ensures Untouched(s, Repeat(s, x, now), k)
  {
    FlushUntouched(Count(s, x, now), x, now, k);
  }

  lemma InsertUntouched(s: State, x: Key, now: int, k: Key)
    requires k != x
    ensures Untouched(s, Insert(s, x, now), k)
  {
    WriteCounts(s.output, Full(x), k);
  }

  lemma ExpireUntouched(s: State, key: Key, now: int, k: Key)
    requires k != key
    ensures var s1 := Expire(s, key, now);
            Untouched(s, s1, k) && |s1.entries| == |s.entries| - (if key in s.entries && key !in s1.entries then 1 else 0)
  {
    CloseUntouched(s, key, now, k);
  }

  /** A call of another key leaves k alone, or evicts it. */
  lemma OtherCallTracks(s: State, key: Key, k: Key, now: int, c: Choice)
    requires k != key && s.interval > 0 && |s.entries| <= 1024
    ensures var s' := Counted(s, key, now, c.victim);
            s'.interval == s.interval && if Evicts(s, key, c, k) then k !in s'.entries else Untouched(s, s', k)
  {
    var s1 := Expire(s, key, now);
    ExpireUntouched(s, key, now, k);
    if key in s1.entries {
      RepeatUntouched(s1, key, now, k);
    } else if |s1.entries| >= MAX_REPEAT_ENTRIES {
      AddsInFull(s, s1, key, k, now, c);
    } else {
      InsertUntouched(s1, key, now, k);
    }
  }

  /** The cache is full: the oldest entry makes room. */
  lemma AddsInFull(s: State, s1: State, key: Key, k: Key, now: int, c: Choice)
    requires k != key && Untouched(s, s1, k) && key !in s1.entries && 1024 >= |s.entries| >= |s1.entries| >= MAX_REPEAT_ENTRIES
    requires |s1.entries| == |s.entries| - if key in s.entries then 1 else 0
    ensures var s' := Insert(Evict(s1, c.victim, now), key, now);
            s'.interval == s.interval && if Evicts(s, key, c, k) then k !in s'.entries else Untouched(s, s', k)
  {
    InsertUntouched(Evict(s1, c.victim, now), key, now, k);
    if k != c.victim { CloseUntouched(s1, c.victim, now, k); }
    FlushFacts(s1, c.victim, now);
  }

  lemma VisitUntouched(s: State, x: Key, now: int, k: Key)
    requires k != x
    ensures Untouched(s, Visit(s, x, now), k)
  {
    if x in s.entries {
      var s1 := if now - s.entries[x].lastEmitted >= s.interval then Flush(s, x, now) else s;
      FlushUntouched(s, x, now, k);
      assert Untouched(s, s1, k);
      ForgetUntouched(s1, x, k);
      assert Visit(s, x, now) == s1 || Visit(s, x, now) == Forget(s1, x);
    }
  }

  lemma ForgetUntouched(s: State, x: Key, k: Key)
    requires k != x
    ensures Untouched(s, Forget(s, x), k)
  {
  }

  /** One turn of the timer's loop, seen from the state in which the timer fired. */
  lemma VisitTracks(s0: State, s: State, x: Key, now: int, k: Key, m: Memory)
    requires Tracks(s, k, Noted(s0, s, k, now, m.called, m.emitted), now) && RepeatsOf(s.output, k) >= RepeatsOf(s0.output, k)
    ensures var s' := Visit(s, x, now);
            Tracks(s', k, Noted(s0, s', k, now, m.called, m.emitted), now) && RepeatsOf(s'.output, k) >= RepeatsOf(s0.output, k)
            && s'.interval == s.interval
  {
    if x == k {
      FlushEmits(s, k, now, k);
    } else {
      VisitUntouched(s, x, now, k);
    }
  }

  lemma {:induction false} VisitAllTracks(s: State, order: seq<Key>, now: int, k: Key, m: Memory)
    requires Tracks(s, k, m, now)
    ensures var s' := VisitAll(s, order, now);
            Tracks(s', k, Noted(s, s', k, now, m.called, m.emitted), now) && RepeatsOf(s'.output, k) >= RepeatsOf(s.output, k)
            && s'.interval == s.interval
  {
    if order != [] {
      VisitAllTracks(s, order[..|order| - 1], now, k, m);
      VisitTracks(s, VisitAll(s, order[..|order| - 1], now), order[|order| - 1], now, k, m);
    }
  }

  lemma LogTracks(s: State, key: Key, fatal: bool, now: int, c: Choice, k: Key, m: Memory)
    requires Tracks(s, k, m, now) && Punctual(s, now) && Enabled(s, now, Log(key, fatal, c))
    ensures Tracks(Next(s, now, Log(key, fatal, c)), k, Remembered(s, now, Log(key, fatal, c), k, m), now)
  {
    if !Counting(s, fatal) {
      ResetFacts(s, c.order, now);
    } else if key == k {
      OwnCallTracks(s, k, now, c.victim, m);
    } else {
      OtherCallTracks(s, key, k, now, c);
    }
  }

  lemma FireTracks(s: State, id: nat, now: int, visit: seq<Key>, order: seq<Key>, k: Key, m: Memory)
    requires Tracks(s, k, m, now) && AllowsFire(s, id, now, visit, order)
    ensures var s' := Fire(s, id, now, visit, order);
            Tracks(s', k, Noted(s, s', k, now, m.called, m.emitted), now)
  {
    if s.timer.Some? && s.timer.value.id == id { VisitAllTracks(s.(timer := None), visit, now, k, m); }
  }

  lemma ResetTracks(s: State, order: seq<Key>, now: int, k: Key, emitted: Option<int>)
    ensures Tracks(Reset(s, order, now), k, Memory(None, emitted), now)
  {
    ResetFacts(s, order, now);
  }

  lemma NextTracks(s: State, now: int, e: Event, k: Key, m: Memory)
    requires Tracks(s, k, m, now) && Punctual(s, now) && Enabled(s, now, e)
    ensures Tracks(Next(s, now, e), k, Remembered(s, now, e, k, m), now)
  {
    match e
    case Log(key, fatal, c) => LogTracks(s, key, fatal, now, c, k, m);
    case Expired(id, visit, order) => FireTracks(s, id, now, visit, order, k, m);
    case FlushRepeated(order) => ResetTracks(s, order, now, k, Remembered(s, now, e, k, m).emitted);
    case SetRepeatInterval(interval, order) =>
      if interval >= 0 { ResetTracks(s, order, now, k, Remembered(s, now, e, k, m).emitted); }
  }

  lemma {:induction false} VisitAllInterval(s: State, order: seq<Key>, now: int)
    ensures VisitAll(s, order, now).interval == s.interval
  {
    if order != [] { VisitAllInterval(s, order[..|order| - 1], now); }
  }

  lemma NextInterval(s: State, now: int, e: Event)
    requires Enabled(s, now, e)
    ensures Next(s, now, e).interval == if e.SetRepeatInterval? && e.interval >= 0 then e.interval else s.interval
  {
    match e
    case Log(key, fatal, c) => ResetFacts(s, c.order, now);
    case Expired(id, visit, order) => VisitAllInterval(s.(timer := None), visit, now);
    case FlushRepeated(order) => ResetFacts(s, order, now);
    case SetRepeatInterval(_, order) => ResetFacts(s, order, now);
  }

  lemma {:induction false} RunTracks(start: int, s0: State, es: seq<Timed>, s: State, k: Key, m: Memory)
    requires Runs(start, s0, es, s) && Tracks(s0, k, m, start) && Punctual(s0, start) && Armed(s0, start) && Conserved(s0, k)
    ensures var end := if es == [] then start else es[|es| - 1].now;
            Tracks(s, k, MemoryOf(start, s0, es, s, k, m), end) && start <= end
    ensures s.interval == IntervalOf(s0.interval, es)
    decreases |es|
  {
    if es != [] {
      var At(now, e) := es[0];
      Later(s0, start, now);
      NextTracks(s0, now, e, k, m);
      NextKeeps(s0, now, e, k);
      NextInterval(s0, now, e);
      RunTracks(now, Next(s0, now, e), es[1..], s, k, Remembered(s0, now, e, k, m));
    }
  }

  // The theorems

  /** A run of a new cache, and what it remembers of k. */
  predicate Reached(interval: int, start: int, es: seq<Timed>, s: State, now: int) {
    interval >= 0 && Runs(start, Initial(interval), es, s) && (if es == [] then start else es[|es| - 1].now) <= now
  }

  lemma ReachedTracks(interval: int, start: int, es: seq<Timed>, s: State, now: int, k: Key)
    requires Reached(interval, start, es, s, now)
    ensures Tracks(s, k, MemoryOf(start, Initial(interval), es, s, k, NOTHING), now)
    ensures s.interval == IntervalOf(interval, es) && Punctual(s, now) && Armed(s, now)
  {
    RunTracks(start, Initial(interval), es, s, k, NOTHING);
    RunKeeps(start, Initial(interval), es, s, k);
    Later(s, if es == [] then start else es[|es| - 1].now, now);
  }

  /**
   * In every run, a message is suppressed exactly if suppression is on, it is not fatal, and the last call of the same
   * message is less than an interval ago and was neither reset nor evicted since. It is written in full, once, exactly
   * if it is not suppressed, and nothing else is written in full.
   */
  lemma SuppressedIff(interval: int, start: int, es: seq<Timed>, s: State, now: int, k: Key, fatal: bool, c: Choice, x: Key)
    requires Reached(interval, start, es, s, now) && Allows(s, k, fatal, now, c)
    ensures var last, on := MemoryOf(start, Initial(interval), es, s, k, NOTHING).called, IntervalOf(interval, es);
            var (s', suppressed) := Suppress(s, k, fatal, now, c);
            && (suppressed <==> on > 0 && !fatal && last.Some? && now - last.value < on)
            && FullsOf(s'.output, x) == FullsOf(s.output, x) + if x == k && !suppressed then 1 else 0
  {
    ReachedTracks(interval, start, es, s, now, k);
    if Counting(s, fatal) {
      CountedEmits(s, k, now, c.victim, x);
    } else {
      FlushAllEmits(s.(timer := None), c.order, now, x);
      WriteCounts(Reset(s, c.order, now).output, Full(k), x);
    }
  }

  /** No other event writes a message in full. */
  lemma OthersWriteNoMessage(s: State, now: int, e: Event, x: Key)
    requires Enabled(s, now, e) && !e.Log?
    ensures FullsOf(Next(s, now, e).output, x) == FullsOf(s.output, x)
  {
    match e
    case Expired(id, visit, order) => VisitAllEmits(s.(timer := None), visit, now, x);
    case FlushRepeated(order) => FlushAllEmits(s.(timer := None), order, now, x);
    case SetRepeatInterval(_, order) => FlushAllEmits(s.(timer := None), order, now, x);
  }

  /** A suppressed message is reported at once, with all repeats so far, exactly if the last output for it is an interval ago. */
  lemma RepeatIsReportedIff(interval: int, start: int, es: seq<Timed>, s: State, now: int, k: Key, c: Choice)
    requires Reached(interval, start, es, s, now) && Allows(s, k, false, now, c) && Suppress(s, k, false, now, c).1
    ensures var emitted := MemoryOf(start, Initial(interval), es, s, k, NOTHING).emitted;
            var s' := Suppress(s, k, false, now, c).0;
            emitted.Some?
            && if now - emitted.value >= IntervalOf(interval, es)
               then RepeatsOf(s'.output, k) == RepeatsOf(s.output, k) + Pending(s, k) + 1 && Pending(s', k) == 0
               else RepeatsOf(s'.output, k) == RepeatsOf(s.output, k) && Pending(s', k) == Pending(s, k) + 1
  {
    ReachedTracks(interval, start, es, s, now, k);
    FlushEmits(Count(s, k, now), k, now, k);
    FlushFacts(Count(s, k, now), k, now);
  }

  /** While repeats are waiting, a timer is due no later than an interval after the last output for the message. */
  lemma ReportIsDue(interval: int, start: int, es: seq<Timed>, s: State, now: int, k: Key)
    requires Reached(interval, start, es, s, now) && Pending(s, k) > 0
    ensures var emitted := MemoryOf(start, Initial(interval), es, s, k, NOTHING).emitted;
            emitted.Some? && s.timer.Some? && s.timer.value.deadline <= emitted.value + IntervalOf(interval, es)
  {
    ReachedTracks(interval, start, es, s, now, k);
  }

  /** One turn of the timer's loop and the repeats of k. */
  lemma VisitReports(s: State, x: Key, now: int, k: Key)
    ensures var s' := Visit(s, x, now);
            var reported := x == k && k in s.entries && now - s.entries[k].lastEmitted >= s.interval;
            s'.interval == s.interval
            && RepeatsOf(s'.output, k) == RepeatsOf(s.output, k) + (if reported then Pending(s, k) else 0)
            && Pending(s', k) == (if reported then 0 else Pending(s, k))
            && (Pending(s', k) > 0 ==> s'.entries[k] == s.entries[k])
  {
    if x == k {
      FlushEmits(s, k, now, k);
    } else {
      VisitUntouched(s, x, now, k);
    }
  }

  lemma {:induction false} VisitAllReports(s: State, order: seq<Key>, now: int, k: Key)
    requires Pending(s, k) > 0
    ensures var s' := VisitAll(s, order, now);
            var reported := k in order && now - s.entries[k].lastEmitted >= s.interval;
            s'.interval == s.interval
            && RepeatsOf(s'.output, k) == RepeatsOf(s.output, k) + (if reported then Pending(s, k) else 0)
            && Pending(s', k) == (if reported then 0 else Pending(s, k))
            && (Pending(s', k) > 0 ==> s'.entries[k] == s.entries[k])
  {
    if order != [] {
      var n := |order| - 1;
      VisitAllReports(s, order[..n], now, k);
      VisitReports(VisitAll(s, order[..n], now), order[n], now, k);
      assert order == order[..n] + [order[n]];
    }
  }

  /** The timer reports the repeats of a message exactly if the last output for it is an interval ago. */
  lemma TimerReportsIff(interval: int, start: int, es: seq<Timed>, s: State, now: int, k: Key, id: nat,
                        visit: seq<Key>, order: seq<Key>)
    requires Reached(interval, start, es, s, now) && AllowsFire(s, id, now, visit, order)
    requires s.timer.Some? && s.timer.value.id == id && Pending(s, k) > 0
    ensures var emitted := MemoryOf(start, Initial(interval), es, s, k, NOTHING).emitted;
            var s' := Fire(s, id, now, visit, order);
            emitted.Some?
            && if now - emitted.value >= IntervalOf(interval, es)
               then RepeatsOf(s'.output, k) == RepeatsOf(s.output, k) + Pending(s, k) && Pending(s', k) == 0
               else RepeatsOf(s'.output, k) == RepeatsOf(s.output, k) && Pending(s', k) == Pending(s, k)
  {
    ReachedTracks(interval, start, es, s, now, k);
    VisitAllReports(s.(timer := None), visit, now, k);
  }

  /** A call that finds the cache full of other messages makes room by giving up one that was called least recently. */
  lemma EvictedIsOldest(interval: int, start: int, es: seq<Timed>, s: State, now: int, key: Key, c: Choice, x: Key)
    requires Reached(interval, start, es, s, now) && Allows(s, key, false, now, c) && s.interval > 0
    requires key !in s.entries && |s.entries| >= 1024
    requires var last := MemoryOf(start, Initial(interval), es, s, x, NOTHING).called; last.Some? && now - last.value < s.interval
    ensures var victim := MemoryOf(start, Initial(interval), es, s, c.victim, NOTHING).called;
            c.victim in s.entries && victim.Some?
            && victim.value <= MemoryOf(start, Initial(interval), es, s, x, NOTHING).called.value
  {
    ReachedTracks(interval, start, es, s, now, c.victim);
    ReachedTracks(interval, start, es, s, now, x);
  }

  lemma {:induction false} SoonestIsOne(entries: map<Key, Entry>, interval: int, order: seq<Key>, latest: int)
    requires forall k :: k in order ==> k in entries
    ensures var soonest := Soonest(entries, interval, order, latest);
            soonest == latest || exists k :: k in order && soonest == Due(entries[k], interval)
  {
    if order != [] { SoonestIsOne(entries, interval, order[..|order| - 1], latest); }
  }

  /** The last output for a message with repeats waiting, or the last call of one without. */
  function LastNoted(s: State, k: Key, m: Memory): Option<int> {
    if Pending(s, k) > 0 then m.emitted else m.called
  }

  /** The deadline is an interval after this time, or earlier. */
  predicate DueBy(last: Option<int>, interval: int, deadline: int) {
    last.Some? && deadline <= last.value + interval
  }

  lemma NotedIsDue(s: State, k: Key, m: Memory, now: int)
    requires Punctual(s, now) && k in s.entries && Tracks(s, k, m, now)
    ensures LastNoted(s, k, m) == Some(Due(s.entries[k], s.interval) - s.interval)
    ensures Due(s.entries[k], s.interval) <= now + s.interval
  {
    assert Timely(s.entries[k], now);
  }

  lemma DeadlineIsOne(s: State, order: seq<Key>, now: int)
    requires Punctual(s, now) && Lists(order, s.entries) && s.timer == None && s.entries != map[]
    ensures var timer := Schedule(s, order, now).timer;
            timer.Some? && exists k :: k in s.entries && timer.value.deadline == Due(s.entries[k], s.interval)
  {
    ScheduleArms(s, order, now);
    SoonestIsOne(s.entries, s.interval, order, now + s.interval);
    var k :| k in s.entries;
    assert Timely(s.entries[k], now);
  }

  /**
   * When a timer is armed, it is due early enough for every message in the cache, and exactly for one: an interval after
   * the last output for a message with repeats waiting, and an interval after the last call of one without.
   */
  lemma ArmedForEarliest(s: State, order: seq<Key>, now: int, memory: map<Key, Memory>)
    requires Punctual(s, now) && Lists(order, s.entries) && s.timer == None && s.entries != map[]
    requires forall k :: k in s.entries ==> k in memory && Tracks(s, k, memory[k], now)
    ensures var timer := Schedule(s, order, now).timer;
            && timer.Some?
            && (forall k :: k in s.entries ==> k in memory && DueBy(LastNoted(s, k, memory[k]), s.interval, timer.value.deadline))
            && exists k :: k in s.entries && k in memory && LastNoted(s, k, memory[k]) == Some(timer.value.deadline - s.interval)
  {
    ScheduleArms(s, order, now);
    DeadlineIsOne(s, order, now);
    forall k | k in s.entries ensures LastNoted(s, k, memory[k]) == Some(Due(s.entries[k], s.interval) - s.interval) {
      NotedIsDue(s, k, memory[k], now);
    }
  }
}

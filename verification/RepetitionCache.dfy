/** The duplicate cache of src/logging/repetition.go as it is updated in place. */
module RepetitionCache {
  import opened Options
  import opened Repetition

  class Cache {
    var repetitions: map<Key, Entry>
    var repeatInterval: int
    var repeatTimer: Option<Timer>
    var timers: nat
    var output: seq<Written>
    ghost var calls: multiset<Key>

    ghost function Value(): State
      reads this
    {
      State(repetitions, repeatInterval, repeatTimer, timers, calls, output)
    }

    constructor (interval: int)
      ensures Value() == Initial(interval)
    {
      repetitions, repeatInterval, repeatTimer, timers := map[], interval, None, 0;
      output, calls := [], multiset{};
    }

    method FlushRepetition(key: Key, now: int)
      requires key in repetitions
      modifies this
      ensures Value() == Flush(old(Value()), key, now)
    {
      var entry := repetitions[key];
      if entry.count == 0 { return; }
      output := output + [Summary(key, entry.count)];
      entry := entry.(count := 0, lastEmitted := now);
      repetitions := repetitions[key := entry];
    }

    /** Returns the order in which the map was visited. */
    method ResetRepetition(now: int) returns (order: seq<Key>)
      modifies this
      ensures Lists(order, old(repetitions)) && Value() == Reset(old(Value()), order, now)
    {
      repeatTimer := None;
      ghost var s := Value();
      order := [];
      var todo := repetitions.Keys;
      while todo != {}
        invariant repetitions.Keys == old(repetitions).Keys && todo <= repetitions.Keys
        invariant forall k :: k in order <==> k in repetitions && k !in todo
        invariant Value() == FlushAll(s, order, now)
        decreases todo
      {
        var key :| key in todo;
        FlushRepetition(key, now);
        assert (order + [key])[..|order|] == order;
        order := order + [key];
        todo := todo - {key};
      }
      repetitions := map[];
    }

    /** The scan for the entry that was seen least recently. */
    method FindOldest() returns (oldest: Key)
      requires repetitions != map[]
      ensures Oldest(repetitions, oldest)
    {
      var todo := repetitions.Keys;
      oldest :| oldest in todo;
      todo := todo - {oldest};
      while todo != {}
        invariant todo <= repetitions.Keys && oldest in repetitions
        invariant forall k :: k in repetitions && k !in todo ==> repetitions[oldest].lastSeen <= repetitions[k].lastSeen
        decreases todo
      {
        var candidate :| candidate in todo;
        if repetitions[candidate].lastSeen < repetitions[oldest].lastSeen { oldest := candidate; }
        todo := todo - {candidate};
      }
    }

    method ScheduleTimer(now: int) returns (order: seq<Key>)
      modifies this
      ensures Lists(order, old(repetitions)) && Value() == Schedule(old(Value()), order, now)
    {
      order := [];
      var deadline := now + repeatInterval;
      var todo := repetitions.Keys;
      while todo != {}
        invariant todo <= repetitions.Keys
        invariant forall k :: k in order <==> k in repetitions && k !in todo
        invariant deadline == Soonest(repetitions, repeatInterval, order, now + repeatInterval)
        decreases todo
      {
        var key :| key in todo;
        var due := Due(repetitions[key], repeatInterval);
        if due < deadline { deadline := due; }
        assert (order + [key])[..|order|] == order;
        order := order + [key];
        todo := todo - {key};
      }
      if repeatTimer != None || |repetitions| == 0 { return; }
      repeatTimer := Some(Timer(timers, deadline));
      timers := timers + 1;
    }

    method SuppressRepeated(key: Key, fatal: bool, now: int) returns (suppressed: bool, c: Choice)
      modifies this
      ensures Allows(old(Value()), key, fatal, now, c)
      ensures (Value(), suppressed) == Suppress(old(Value()), key, fatal, now, c)
    {
      if repeatInterval == 0 || fatal {
        suppressed, c := PassThrough(key, now);
      } else {
        suppressed, c := CountAndSchedule(key, now);
      }
      calls := calls[key := calls[key] + 1];
    }

    method PassThrough(key: Key, now: int) returns (suppressed: bool, c: Choice)
      modifies this
      ensures Lists(c.order, old(repetitions)) && !suppressed
      ensures Value() == WrittenInFull(Reset(old(Value()), c.order, now), key)
    {
      var order := ResetRepetition(now);
      output := output + [Full(key)];
      return false, Choice(order, key);
    }

    method CountAndSchedule(key: Key, now: int) returns (suppressed: bool, c: Choice)
      requires repeatInterval != 0
      modifies this
      ensures Allows(old(Value()), key, false, now, c) && suppressed == (key in Expire(old(Value()), key, now).entries)
      ensures Value() == Schedule(Counted(old(Value()), key, now, c.victim), c.order, now)
    {
      var victim;
      suppressed, victim := CountOrAdd(key, now);
      var order := ScheduleTimer(now);
      c := Choice(order, victim);
    }

    method CountOrAdd(key: Key, now: int) returns (suppressed: bool, victim: Key)
      modifies this
      ensures Value() == Counted(old(Value()), key, now, victim)
      ensures var s1 := Expire(old(Value()), key, now);
              suppressed == (key in s1.entries)
              && (|s1.entries| >= MAX_REPEAT_ENTRIES && !suppressed ==> Oldest(s1.entries, victim))
    {
      if key in repetitions && now - repetitions[key].lastSeen >= repeatInterval {
        FlushRepetition(key, now);
        repetitions := repetitions - {key};
      }
      suppressed := key in repetitions;
      victim := key;
      if suppressed {
        CountRepeat(key, now);
      } else {
        victim := AddEntry(key, now);
      }
    }

    method AddEntry(key: Key, now: int) returns (victim: Key)
      modifies this
      ensures |old(repetitions)| >= MAX_REPEAT_ENTRIES ==> Oldest(old(repetitions), victim)
      ensures Value() == Insert(Evict(old(Value()), victim, now), key, now)
    {
      victim := key;
      if |repetitions| >= MAX_REPEAT_ENTRIES {
        victim := FindOldest();
        FlushRepetition(victim, now);
        repetitions := repetitions - {victim};
      }
      repetitions := repetitions[key := Entry(0, now, now)];
      output := output + [Full(key)];
    }

    method CountRepeat(key: Key, now: int)
      requires key in repetitions
      modifies this
      ensures Value() == Repeat(old(Value()), key, now)
    {
      var entry := repetitions[key];
      entry := entry.(count := entry.count + 1, lastSeen := now);
      repetitions := repetitions[key := entry];
      if now - entry.lastEmitted >= repeatInterval {
        FlushRepetition(key, now);
      }
    }

    method VisitEntry(key: Key, now: int)
      requires key in repetitions
      modifies this
      ensures Value() == Visit(old(Value()), key, now)
    {
      if now - repetitions[key].lastEmitted >= repeatInterval {
        FlushRepetition(key, now);
      }
      if repetitions[key].count == 0 && now - repetitions[key].lastSeen >= repeatInterval {
        repetitions := repetitions - {key};
      }
    }

    method OnTimer(id: nat, now: int) returns (visit: seq<Key>, order: seq<Key>)
      modifies this
      ensures AllowsFire(old(Value()), id, now, visit, order)
      ensures Value() == Fire(old(Value()), id, now, visit, order)
    {
      visit, order := [], [];
      if repeatTimer == None || repeatTimer.value.id != id { return; }
      repeatTimer := None;
      ghost var s := Value();
      var todo := repetitions.Keys;
      while todo != {}
        invariant repetitions.Keys <= old(repetitions).Keys && todo <= repetitions.Keys
        invariant forall k :: k in visit <==> k in old(repetitions) && k !in todo
        invariant Value() == VisitAll(s, visit, now)
        decreases todo
      {
        var key :| key in todo;
        VisitEntry(key, now);
        assert (visit + [key])[..|visit|] == visit;
        visit := visit + [key];
        todo := todo - {key};
      }
      order := ScheduleTimer(now);
    }
  }
}

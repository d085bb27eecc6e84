/** What the identities in the log tell: the run, the segments and the windows, in every run. */
module LogIdentities {
  import opened Bytes
  import opened Options
  import opened Integrity
  import opened LogWriter
  import opened LogVerifier
  import opened LogWindows

  predicate Restart(r: Record) {
    Linked(r) && LinkOf(r).restart
  }

  /** No record behind i is a restart. */
  predicate NoRestart(records: seq<Record>, i: nat) {
    forall j :: i < j < |records| ==> !Restart(records[j])
  }

  /** Neither i nor a record behind it is an anchor. */
  predicate NoAnchor(records: seq<Record>, i: nat) {
    forall j :: i <= j < |records| ==> !records[j].event.Closing?
  }

  /** Record i is in the segment that is open behind the records, which the next record may restart. */
  predicate InOpenSegment(records: seq<Record>, i: nat, restart: bool) {
    !restart && NoRestart(records, i)
  }

  /** How the identities of a record compare with those of the state behind it. */
  predicate Told(s: State, records: seq<Record>, i: nat)
    requires i < |records| && Linked(records[i])
  {
    var l := LinkOf(records[i]);
    && l.segment <= s.drawn && l.window <= s.drawn
    && (l.segment == s.segment <==> InOpenSegment(records, i, s.restartPending))
    && (l.window == s.window <==> InOpenSegment(records, i, s.restartPending) && NoAnchor(records, i))
    && l.segment != s.window && l.window != s.segment && l.segment != s.run && l.window != s.run
  }

  predicate AllTold(s: State, records: seq<Record>) {
    forall i :: 0 <= i < |records| && Linked(records[i]) ==> Told(s, records, i)
  }

  /** Identities are drawn before they are used, and each is drawn anew. */
  predicate Drawn(s: State) {
    && s.segment <= s.drawn && s.window <= s.drawn && s.run <= s.drawn
    && (s.algorithm.Some? ==> s.run > 0)
    && (s.run > 0 ==> s.segment > 0 && s.window > 0 && s.segment != s.window && s.run != s.segment && s.run != s.window)
  }

  /** All numbered records carry the identity of the run. */
  predicate OneRun(s: State, records: seq<Record>) {
    forall i :: 0 <= i < |records| && records[i].stamp.Stamped? ==> s.run > 0 && records[i].stamp.run == s.run
  }

  /** Two chained records: the same segment, and the same window, exactly if nothing between them starts a new one. */
  predicate Tells(records: seq<Record>, i: nat, k: nat)
    requires i < k < |records| && Linked(records[i]) && Linked(records[k])
  {
    var l, m := LinkOf(records[i]), LinkOf(records[k]);
    && (l.segment == m.segment <==> NoRestart(records[..k + 1], i))
    && (l.window == m.window <==> NoRestart(records[..k + 1], i) && NoAnchor(records[..k], i))
    && l.segment != m.window && l.window != m.segment
  }

  predicate AllTell(records: seq<Record>) {
    forall i, k :: 0 <= i < k < |records| && Linked(records[i]) && Linked(records[k]) ==> Tells(records, i, k)
  }

  predicate Identified(l: Log) {
    Drawn(l.state) && OneRun(l.state, l.output) && AllTold(l.state, l.output) && AllTell(l.output)
  }

  // One record

  lemma Snoc(records: seq<Record>, r: Record, i: nat)
    requires i < |records|
    ensures NoRestart(records + [r], i) <==> NoRestart(records, i) && !Restart(r)
    ensures NoAnchor(records + [r], i) <==> NoAnchor(records, i) && !r.event.Closing?
  {
    var all := records + [r];
    assert all[|records|] == r;
    assert forall j :: 0 <= j < |records| ==> all[j] == records[j];
  }

  /** A record with the identities of the state. */
  predicate Carries(s: State, r: Record) {
    && (r.stamp.Stamped? ==> s.run > 0 && r.stamp.run == s.run)
    && (Linked(r) ==>
          LinkOf(r).segment == s.segment && LinkOf(r).window == s.window && LinkOf(r).restart == s.restartPending)
  }

  lemma TellEarlier(records: seq<Record>, r: Record, i: nat, k: nat)
    requires i < k < |records| && Linked(records[i]) && Linked(records[k]) && Tells(records, i, k)
    ensures Tells(records + [r], i, k)
  {
    var all := records + [r];
    assert all[..k + 1] == records[..k + 1] && all[..k] == records[..k];
  }

  lemma TellLast(s: State, records: seq<Record>, r: Record, i: nat)
    requires Drawn(s) && i < |records| && Linked(records[i]) && Told(s, records, i) && Carries(s, r) && Linked(r)
    ensures Tells(records + [r], i, |records|)
  {
    var all := records + [r];
    assert all[..|records| + 1] == all && all[..|records|] == records;
    Snoc(records, r, i);
  }

  lemma TellAt(s: State, records: seq<Record>, r: Record, i: nat, k: nat)
    requires Drawn(s) && AllTold(s, records) && AllTell(records) && Carries(s, r)
    requires i < k <= |records| && Linked((records + [r])[i]) && Linked((records + [r])[k])
    ensures Tells(records + [r], i, k)
  {
    assert (records + [r])[i] == records[i];
    if k < |records| {
      assert (records + [r])[k] == records[k];
      TellEarlier(records, r, i, k);
    } else {
      TellLast(s, records, r, i);
    }
  }

  lemma TellSnoc(s: State, records: seq<Record>, r: Record)
    requires Drawn(s) && AllTold(s, records) && AllTell(records) && Carries(s, r)
    ensures AllTell(records + [r])
  {
    var all := records + [r];
    forall i, k | 0 <= i < k < |all| && Linked(all[i]) && Linked(all[k]) ensures Tells(all, i, k) {
      TellAt(s, records, r, i, k);
    }
  }

  /** The state behind a chained record or an unchained one, before its anchor. */
  lemma ToldSnoc(s: State, s': State, records: seq<Record>, r: Record)
    requires Drawn(s) && s.run > 0 && AllTold(s, records) && Carries(s, r) && !r.event.Closing?
    requires s'.segment == s.segment && s'.window == s.window && s'.run == s.run && s'.drawn == s.drawn
    requires s'.restartPending == (s.restartPending && !Linked(r))
    ensures AllTold(s', records + [r])
  {
    var all := records + [r];
    forall i | 0 <= i < |all| && Linked(all[i]) ensures Told(s', all, i) {
      if i < |records| {
        assert Told(s, records, i);
        Snoc(records, r, i);
      } else {
        assert NoRestart(all, i) && NoAnchor(all, i);
      }
    }
  }

  /** The state behind an anchor: the window is a new one. */
  lemma ToldAnchor(s: State, s': State, records: seq<Record>, r: Record)
    requires Drawn(s) && s.run > 0 && AllTold(s, records) && Carries(s, r) && r.event.Closing? && Linked(r)
    requires s'.segment == s.segment && s'.window == s.drawn + 1 && s'.run == s.run && s'.drawn == s.drawn + 1
    requires !s'.restartPending
    ensures AllTold(s', records + [r])
  {
    var all := records + [r];
    forall i | 0 <= i < |all| && Linked(all[i]) ensures Told(s', all, i) {
      assert !NoAnchor(all, i) by { assert all[|records|] == r; }
      if i < |records| {
        assert Told(s, records, i);
        Snoc(records, r, i);
      } else {
        assert NoRestart(all, i);
      }
    }
  }

  lemma OneRunSnoc(s: State, s': State, records: seq<Record>, r: Record)
    requires OneRun(s, records) && Carries(s, r) && s'.run == s.run
    ensures OneRun(s', records + [r])
  {
  }

  lemma UnstampedTold(s: State, records: seq<Record>, r: Record)
    requires AllTold(s, records) && r.stamp.Unstamped? && !r.event.Closing?
    ensures AllTold(s, records + [r])
  {
    var all := records + [r];
    forall i | 0 <= i < |all| && Linked(all[i]) ensures Told(s, all, i) {
      assert Told(s, records, i);
      Snoc(records, r, i);
    }
  }

  // One operation

  lemma RecordIdentified(l: Log, time: int, level: Level, body: Bytes, event: Event)
    requires Identified(l) && !event.Closing?
    ensures Identified(WriteRecord(l, time, level, body, event))
  {
    var s, s' := l.state, AfterStamp(l.state, time, level, body);
    var r := Record(s.identity, time, level, body, event, StampOf(s, time, level, body));
    assert Carries(s, r);
    TellSnoc(s, l.output, r);
    OneRunSnoc(s, s', l.output, r);
    if s.algorithm == None { UnstampedTold(s, l.output, r); } else { ToldSnoc(s, s', l.output, r); }
  }

  lemma AnchorIdentified(env: Env, l: Log, time: int, clock: int)
    requires Identified(l) && Chaining(l.state)
    ensures Identified(WriteAnchor(env, l, time, clock))
  {
    var s, s', r := l.state, AfterAnchor(l.state, time), AnchorRecord(env, l.state, time, clock);
    WriteAnchorIsRecord(env, l, time, clock);
    assert Carries(s, r) && Linked(r);
    TellSnoc(s, l.output, r);
    OneRunSnoc(s, s', l.output, r);
    ToldAnchor(s, s', l.output, r);
  }

  lemma EventIdentified(env: Env, l: Log, c: Call)
    requires Identified(l)
    ensures Identified(WriteEvent(env, l, c))
  {
    var l1 := WriteRecord(l, c.time, c.level, c.body, General);
    RecordIdentified(l, c.time, c.level, c.body, General);
    if AnchorDue(l1.state) { AnchorIdentified(env, l1, c.time, c.clock); }
  }

  lemma {:induction false} EventsIdentified(env: Env, l: Log, calls: seq<Call>)
    requires Identified(l)
    ensures Identified(WriteEvents(env, l, calls))
  {
    if calls != [] {
      EventsIdentified(env, l, calls[..|calls| - 1]);
      EventIdentified(env, WriteEvents(env, l, calls[..|calls| - 1]), calls[|calls| - 1]);
    }
  }

  /** A state with the identities of another. */
  predicate SameIdentities(s: State, s': State) {
    s'.run == s.run && s'.segment == s.segment && s'.window == s.window && s'.drawn == s.drawn
    && s'.restartPending == s.restartPending
  }

  lemma SameIdentified(l: Log, s': State)
    requires Identified(l) && SameIdentities(l.state, s') && (s'.algorithm.Some? ==> l.state.algorithm.Some?)
    ensures Identified(Log(s', l.output))
  {
    forall i | 0 <= i < |l.output| && Linked(l.output[i]) ensures Told(s', l.output, i) {
      assert Told(l.state, l.output, i);
    }
  }

  lemma ResetIdentified(l: Log, s: State)
    requires Identified(l) && SameIdentities(l.state, s)
    ensures Identified(Log(Reset(s), l.output))
  {
    var s' := Reset(s);
    forall i | 0 <= i < |l.output| && Linked(l.output[i]) ensures Told(s', l.output, i) {
      assert Told(l.state, l.output, i);
    }
  }

  lemma RotationIdentified(env: Env, l: Log, candidate: Candidate, pending: seq<Call>, time: int, clock: int)
    requires Identified(l) && Replaces(l.state, candidate)
    ensures Identified(Rotate(env, l, candidate, pending, time, clock).0)
  {
    var current, next := l.state.signer.value, candidate.signer;
    var flushed := WriteEvents(env, l, pending);
    var before := WriteRecord(flushed, time, Info, env.announce(current, next), Rotation(current, next));
    EventsIdentified(env, l, pending);
    WriteEventsKeep(env, l, pending);
    RecordIdentified(flushed, time, Info, env.announce(current, next), Rotation(current, next));
    AnchorIdentified(env, before, time, clock);
    var after := WriteAnchor(env, before, time, clock);
    SameIdentified(after, after.state.(signer := Some(next)));
  }

  lemma StepIdentified(env: Env, l: Log, op: Op)
    requires Identified(l)
    ensures Identified(Step(env, l, op))
  {
    match op
    case Emit(c) => EventIdentified(env, l, c);
    case SetHash(Off) => SameIdentified(l, l.state.(algorithm := None));
    case SetHash(Supported(a)) => ResetIdentified(l, l.state.(algorithm := Some(a)));
    case SetHash(Unsupported) =>
    case SetChainLength(n) => if n >= 0 { ResetIdentified(l, l.state.(chainLen := n)); }
    case SetInstanceID(id) => ResetIdentified(l, l.state.(identity := l.state.identity.(instance := id)));
    case SetServiceName(name) => SameIdentified(l, l.state.(identity := l.state.identity.(service := name)));
    case Rotating(candidate, pending, time, clock) =>
      if Replaces(l.state, candidate) {
        RotationIdentified(env, l, candidate, pending, time, clock);
      } else if candidate.Loaded? && l.state.signer == None {
        SameIdentified(l, l.state.(signer := Some(candidate.signer)));
      }
  }

  lemma {:induction false} RunIdentified(env: Env, identity: Identity, ops: seq<Op>)
    ensures Identified(Run(env, identity, ops))
  {
    if ops != [] {
      RunIdentified(env, identity, ops[..|ops| - 1]);
      StepIdentified(env, Run(env, identity, ops[..|ops| - 1]), ops[|ops| - 1]);
    }
  }

  /**
   * In every run: all numbered records carry one run identity; two chained records carry the same segment identity exactly
   * if no restart lies between them, and the same window identity exactly if no anchor does either; and no identity
   * stands for two of run, segment and window.
   */
  lemma IdentitiesTell(env: Env, identity: Identity, ops: seq<Op>, i: nat, k: nat)
    requires i < k < |Run(env, identity, ops).output|
    ensures var records := Run(env, identity, ops).output;
            && (records[i].stamp.Stamped? && records[k].stamp.Stamped? ==> records[i].stamp.run == records[k].stamp.run)
            && (Linked(records[i]) && Linked(records[k]) ==>
                  var l, m := LinkOf(records[i]), LinkOf(records[k]);
                  && (l.segment == m.segment <==> forall j :: i < j <= k ==> !Restart(records[j]))
                  && (l.window == m.window
                      <==> l.segment == m.segment && forall j :: i <= j < k ==> !records[j].event.Closing?)
                  && l.segment != m.window && l.window != m.segment
                  && records[k].stamp.run != m.segment && records[k].stamp.run != m.window)
  {
    var records := Run(env, identity, ops).output;
    RunIdentified(env, identity, ops);
    if Linked(records[i]) && Linked(records[k]) {
      assert Tells(records, i, k) && Told(Run(env, identity, ops).state, records, k);
      CutTells(records, i, k);
    }
  }

  lemma CutTells(records: seq<Record>, i: nat, k: nat)
    requires i < k < |records|
    ensures NoRestart(records[..k + 1], i) <==> forall j :: i < j <= k ==> !Restart(records[j])
    ensures NoAnchor(records[..k], i) <==> forall j :: i <= j < k ==> !records[j].event.Closing?
  {
  }
}

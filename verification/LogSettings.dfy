/** What the settings of the log do: which records are numbered and hashed, and which are chained, in every run. */
module LogSettings {
  import opened Bytes
  import opened Options
  import opened Integrity
  import opened LogWriter
  import opened LogVerifier

  /** The hash in force: the last that was set, where one that is not supported sets nothing. */
  ghost function AlgorithmOf(ops: seq<Op>): Option<Algorithm> {
    if ops == [] then None
    else
      match ops[|ops| - 1]
      case SetHash(Off) => None
      case SetHash(Supported(a)) => Some(a)
      case _ => AlgorithmOf(ops[..|ops| - 1])
  }

  /** The chain length in force: the last that was set, where a negative one sets nothing. */
  function LengthOf(ops: seq<Op>): nat {
    if ops == [] then 0
    else
      var op := ops[|ops| - 1];
      if op.SetChainLength? && op.length >= 0 then op.length else LengthOf(ops[..|ops| - 1])
  }

  /** A record under these settings: without hash it has no stamp, and without chain length the stamp no link. */
  ghost predicate StampedAs(r: Record, algorithm: Option<Algorithm>, length: nat) {
    match algorithm
    case None => r.stamp.Unstamped?
    case Some(a) =>
      r.stamp.Stamped? && r.stamp.algorithm == a && r.stamp.hash == Digest(a, r.body) && (r.stamp.link.Some? <==> length > 0)
  }

  /** The log has grown, under the settings it has. */
  ghost predicate Grown(l: Log, l': Log) {
    && |l.output| <= |l'.output| && l'.output[..|l.output|] == l.output
    && l'.state.algorithm == l.state.algorithm && l'.state.chainLen == l.state.chainLen
    && forall i :: |l.output| <= i < |l'.output| ==> StampedAs(l'.output[i], l.state.algorithm, l.state.chainLen)
  }

  lemma GrownOn(a: Log, b: Log, c: Log)
    requires Grown(a, b) && Grown(b, c)
    ensures Grown(a, c)
  {
    assert c.output[..|b.output|][..|a.output|] == c.output[..|a.output|];
    forall i | |a.output| <= i < |c.output| ensures StampedAs(c.output[i], a.state.algorithm, a.state.chainLen) {
      if i < |b.output| { assert c.output[..|b.output|][i] == b.output[i]; }
    }
  }

  lemma RecordGrows(l: Log, time: int, level: Level, body: Bytes, event: Event)
    ensures Grown(l, WriteRecord(l, time, level, body, event))
  {
  }

  lemma AnchorGrows(env: Env, l: Log, time: int, clock: int)
    ensures Grown(l, WriteAnchor(env, l, time, clock))
  {
    WriteAnchorIsRecord(env, l, time, clock);
  }

  lemma EventGrows(env: Env, l: Log, c: Call)
    ensures Grown(l, WriteEvent(env, l, c))
  {
    var l1 := WriteRecord(l, c.time, c.level, c.body, General);
    RecordGrows(l, c.time, c.level, c.body, General);
    if AnchorDue(l1.state) {
      AnchorGrows(env, l1, c.time, c.clock);
      GrownOn(l, l1, WriteAnchor(env, l1, c.time, c.clock));
    }
  }

  lemma {:induction false} EventsGrow(env: Env, l: Log, calls: seq<Call>)
    ensures Grown(l, WriteEvents(env, l, calls))
  {
    if calls != [] {
      var before := WriteEvents(env, l, calls[..|calls| - 1]);
      EventsGrow(env, l, calls[..|calls| - 1]);
      EventGrows(env, before, calls[|calls| - 1]);
      GrownOn(l, before, WriteEvents(env, l, calls));
    }
  }

  lemma RotationGrows(env: Env, l: Log, candidate: Candidate, pending: seq<Call>, time: int, clock: int)
    requires Replaces(l.state, candidate)
    ensures Grown(l, Rotate(env, l, candidate, pending, time, clock).0)
  {
    var current, next := l.state.signer.value, candidate.signer;
    var flushed := WriteEvents(env, l, pending);
    var before := WriteRecord(flushed, time, Info, env.announce(current, next), Rotation(current, next));
    EventsGrow(env, l, pending);
    RecordGrows(flushed, time, Info, env.announce(current, next), Rotation(current, next));
    AnchorGrows(env, before, time, clock);
    GrownOn(l, flushed, before);
    GrownOn(l, before, WriteAnchor(env, before, time, clock));
  }

  lemma StepGrows(env: Env, l: Log, op: Op)
    requires op.Emit? || op.Rotating?
    ensures Grown(l, Step(env, l, op))
  {
    match op
    case Emit(c) => EventGrows(env, l, c);
    case Rotating(candidate, pending, time, clock) =>
      if Replaces(l.state, candidate) { RotationGrows(env, l, candidate, pending, time, clock); }
  }

  lemma StepKeepsSettings(env: Env, l: Log, op: Op)
    requires !op.SetHash? && !op.SetChainLength?
    ensures var s := Step(env, l, op).state; s.algorithm == l.state.algorithm && s.chainLen == l.state.chainLen
  {
    if op.Emit? || op.Rotating? { StepGrows(env, l, op); }
  }

  lemma {:induction false} SettingsHold(env: Env, identity: Identity, ops: seq<Op>)
    ensures var s := Run(env, identity, ops).state; s.algorithm == AlgorithmOf(ops) && s.chainLen == LengthOf(ops)
  {
    if ops != [] {
      var op := ops[|ops| - 1];
      SettingsHold(env, identity, ops[..|ops| - 1]);
      if !op.SetHash? && !op.SetChainLength? { StepKeepsSettings(env, Run(env, identity, ops[..|ops| - 1]), op); }
    }
  }

  /**
   * Every record of every run, by the operation that writes it: it is numbered and hashed exactly if a hash is in force,
   * with that hash, and chained exactly if a chain length is too. No operation changes what is written.
   */
  lemma StampedAsSet(env: Env, identity: Identity, ops: seq<Op>, op: Op, i: nat)
    requires |Run(env, identity, ops).output| <= i < |Run(env, identity, ops + [op]).output|
    ensures StampedAs(Run(env, identity, ops + [op]).output[i], AlgorithmOf(ops), LengthOf(ops))
    ensures Run(env, identity, ops + [op]).output[..|Run(env, identity, ops).output|] == Run(env, identity, ops).output
  {
    var l := Run(env, identity, ops);
    assert (ops + [op])[..|ops|] == ops;
    assert Run(env, identity, ops + [op]) == Step(env, l, op);
    SettingsHold(env, identity, ops);
    if op.Emit? || op.Rotating? { StepGrows(env, l, op); }
  }
}

/** When an anchor is signed, and when a rotation of the signer succeeds. */
module LogSigning {
  import opened Bytes
  import opened Options
  import opened Integrity
  import opened LogWriter
  import opened LogVerifier
  import Signing

  /** At the writing of an anchor: the configured signer, and the clock that is read. */
  datatype Circumstance = Circumstance(signer: Option<Signer>, clock: int)

  /** What is signed: who signs, and the anchor's own attributes. */
  function SignedStatement(env: Env, r: Record, signer: Signer): Signing.Statement
    requires r.event.Closing? && r.stamp.Stamped? && r.stamp.link.Some?
  {
    Signing.Statement(
      version := Ascii("v1"), hashAlgorithm := r.stamp.algorithm.name, signatureAlg := Ascii("Ed25519"),
      signerID := signer.signerID, keyID := signer.keyID,
      runID := env.identityText(r.stamp.run),
      segmentID := env.identityText(r.stamp.link.value.segment),
      windowID := env.identityText(r.stamp.link.value.window),
      serviceName := r.identity.service, serviceInstance := r.identity.instance, processStartNano := r.identity.startNano,
      anchorFrom := r.event.anchor.from, anchorTo := r.event.anchor.to,
      previousChain := r.stamp.link.value.prev, finalChain := r.stamp.link.value.chain)
  }

  function HashOf(env: Env, r: Record, signer: Signer): Bytes
    requires r.event.Closing? && r.stamp.Stamped? && r.stamp.link.Some?
  {
    Digest(r.stamp.algorithm, Signing.Encode(SignedStatement(env, r, signer)))
  }

  /** A chained anchor can be signed: within the validity of the certificate, if the key signs its hash. */
  predicate CanSign(env: Env, r: Record, signer: Signer, clock: int)
    requires r.event.Closing? && r.stamp.Stamped? && r.stamp.link.Some?
  {
    signer.notBefore <= clock <= signer.notAfter && env.sign(signer, HashOf(env, r, signer)).Some?
  }

  /** An anchor is signed exactly if a signer is configured and can sign it; without signer it says so. */
  predicate SignedAsConfigured(env: Env, r: Record, c: Circumstance) {
    && r.event.Closing? && r.stamp.Stamped? && r.stamp.link.Some?
    && match c.signer
       case None => r.event.anchor.checkpoint == Unsigned
       case Some(signer) =>
         if CanSign(env, r, signer, c.clock)
         then r.event.anchor.checkpoint == Signed(signer, env.sign(signer, HashOf(env, r, signer)).value)
         else r.event.anchor.checkpoint == SignatureError
  }

  /** The anchor that is written last. */
  lemma AnchorIsSigned(env: Env, l: Log, time: int, clock: int)
    requires Chaining(l.state)
    ensures var out := WriteAnchor(env, l, time, clock).output;
            |out| == |l.output| + 1 && out[..|l.output|] == l.output
            && SignedAsConfigured(env, out[|l.output|], Circumstance(l.state.signer, clock))
  {
    WriteAnchorIsRecord(env, l, time, clock);
  }

  // Runs

  /** For each record an operation writes, the circumstance if it is an anchor. */
  function MarksOfEvent(env: Env, l: Log, c: Call): seq<Option<Circumstance>> {
    var due := AnchorDue(WriteRecord(l, c.time, c.level, c.body, General).state);
    [None] + if due then [Some(Circumstance(l.state.signer, c.clock))] else []
  }

  function MarksOfEvents(env: Env, l: Log, calls: seq<Call>): seq<Option<Circumstance>> {
    if calls == [] then []
    else
      MarksOfEvents(env, l, calls[..|calls| - 1])
      + MarksOfEvent(env, WriteEvents(env, l, calls[..|calls| - 1]), calls[|calls| - 1])
  }

  function MarksOf(env: Env, l: Log, op: Op): seq<Option<Circumstance>> {
    match op
    case Emit(c) => MarksOfEvent(env, l, c)
    case Rotating(candidate, pending, time, clock) =>
      if Replaces(l.state, candidate)
      then MarksOfEvents(env, l, pending) + [None] + [Some(Circumstance(l.state.signer, clock))] else []
    case _ => []
  }

  function Marks(env: Env, identity: Identity, ops: seq<Op>): seq<Option<Circumstance>> {
    if ops == [] then []
    else Marks(env, identity, ops[..|ops| - 1]) + MarksOf(env, Run(env, identity, ops[..|ops| - 1]), ops[|ops| - 1])
  }

  /** Each record is an anchor exactly where the marks say so, and signed as configured there. */
  predicate AllSigned(env: Env, records: seq<Record>, marks: seq<Option<Circumstance>>) {
    |records| == |marks|
    && forall i :: 0 <= i < |records| ==>
         (records[i].event.Closing? <==> marks[i].Some?)
         && (marks[i].Some? ==> SignedAsConfigured(env, records[i], marks[i].value))
  }

  lemma AllSignedSnoc(env: Env, records: seq<Record>, marks: seq<Option<Circumstance>>, r: Record, m: Option<Circumstance>)
    requires AllSigned(env, records, marks)
    requires (r.event.Closing? <==> m.Some?) && (m.Some? ==> SignedAsConfigured(env, r, m.value))
    ensures AllSigned(env, records + [r], marks + [m])
  {
  }

  lemma RecordSigned(env: Env, l: Log, marks: seq<Option<Circumstance>>, time: int, level: Level, body: Bytes, event: Event)
    requires AllSigned(env, l.output, marks) && !event.Closing?
    ensures AllSigned(env, WriteRecord(l, time, level, body, event).output, marks + [None])
  {
    var r := Record(l.state.identity, time, level, body, event, StampOf(l.state, time, level, body));
    AllSignedSnoc(env, l.output, marks, r, None);
  }

  lemma AnchorSigned(env: Env, l: Log, marks: seq<Option<Circumstance>>, time: int, clock: int)
    requires AllSigned(env, l.output, marks) && Chaining(l.state)
    ensures AllSigned(env, WriteAnchor(env, l, time, clock).output, marks + [Some(Circumstance(l.state.signer, clock))])
  {
    AnchorIsSigned(env, l, time, clock);
    WriteAnchorIsRecord(env, l, time, clock);
    AllSignedSnoc(env, l.output, marks, AnchorRecord(env, l.state, time, clock), Some(Circumstance(l.state.signer, clock)));
  }

  lemma EventSigned(env: Env, l: Log, marks: seq<Option<Circumstance>>, c: Call)
    requires AllSigned(env, l.output, marks)
    ensures AllSigned(env, WriteEvent(env, l, c).output, marks + MarksOfEvent(env, l, c))
  {
    RecordSigned(env, l, marks, c.time, c.level, c.body, General);
    var l1 := WriteRecord(l, c.time, c.level, c.body, General);
    if AnchorDue(l1.state) {
      AnchorSigned(env, l1, marks + [None], c.time, c.clock);
      assert marks + [None] + [Some(Circumstance(l.state.signer, c.clock))] == marks + MarksOfEvent(env, l, c);
    } else {
      assert marks + MarksOfEvent(env, l, c) == marks + [None];
    }
  }

  lemma {:induction false} EventsSigned(env: Env, l: Log, marks: seq<Option<Circumstance>>, calls: seq<Call>)
    requires AllSigned(env, l.output, marks)
    ensures AllSigned(env, WriteEvents(env, l, calls).output, marks + MarksOfEvents(env, l, calls))
  {
    if calls == [] {
      assert marks + [] == marks;
    } else {
      var n := |calls| - 1;
      var l1, before := WriteEvents(env, l, calls[..n]), MarksOfEvents(env, l, calls[..n]);
      EventsSigned(env, l, marks, calls[..n]);
      EventSigned(env, l1, marks + before, calls[n]);
      assert marks + before + MarksOfEvent(env, l1, calls[n]) == marks + MarksOfEvents(env, l, calls);
    }
  }

  lemma RotationSigned(env: Env, l: Log, marks: seq<Option<Circumstance>>, candidate: Candidate, pending: seq<Call>,
                       time: int, clock: int)
    requires AllSigned(env, l.output, marks) && Replaces(l.state, candidate)
    ensures AllSigned(env, Rotate(env, l, candidate, pending, time, clock).0.output,
                      marks + MarksOf(env, l, Rotating(candidate, pending, time, clock)))
  {
    var current, next := l.state.signer.value, candidate.signer;
    var flushed, before := WriteEvents(env, l, pending), MarksOfEvents(env, l, pending);
    EventsSigned(env, l, marks, pending);
    WriteEventsKeep(env, l, pending);
    RecordSigned(env, flushed, marks + before, time, Info, env.announce(current, next), Rotation(current, next));
    AnchorSigned(env, WriteRecord(flushed, time, Info, env.announce(current, next), Rotation(current, next)),
                 marks + before + [None], time, clock);
    assert marks + before + [None] + [Some(Circumstance(l.state.signer, clock))]
           == marks + MarksOf(env, l, Rotating(candidate, pending, time, clock));
  }

  lemma StepSigned(env: Env, l: Log, marks: seq<Option<Circumstance>>, op: Op)
    requires AllSigned(env, l.output, marks)
    ensures AllSigned(env, Step(env, l, op).output, marks + MarksOf(env, l, op))
  {
    match op
    case Emit(c) => EventSigned(env, l, marks, c);
    case Rotating(candidate, pending, time, clock) =>
      if Replaces(l.state, candidate) {
        RotationSigned(env, l, marks, candidate, pending, time, clock);
      } else {
        assert marks + [] == marks;
      }
    case _ => assert marks + [] == marks;
  }

  /**
   * Every anchor of every run is signed exactly if a signer is configured when it is written, its certificate is valid
   * at that time and its key signs the hash over the anchor; without signer it is unsigned, else it says that it
   * could not be signed.
   */
  lemma {:induction false} EveryAnchorIsSigned(env: Env, identity: Identity, ops: seq<Op>)
    ensures AllSigned(env, Run(env, identity, ops).output, Marks(env, identity, ops))
  {
    if ops != [] {
      var before := Run(env, identity, ops[..|ops| - 1]);
      EveryAnchorIsSigned(env, identity, ops[..|ops| - 1]);
      StepSigned(env, before, Marks(env, identity, ops[..|ops| - 1]), ops[|ops| - 1]);
    }
  }

  // Rotations

  /** A rotation to another certificate succeeds exactly if the old signer can sign the anchor over the announcement. */
  lemma RotationSucceedsIff(env: Env, l: Log, candidate: Candidate, pending: seq<Call>, time: int, clock: int)
    requires Replaces(l.state, candidate)
    ensures var (l', r) := Rotate(env, l, candidate, pending, time, clock);
            && l'.output != [] && var last := l'.output[|l'.output| - 1];
               last.event.Closing? && last.stamp.Stamped? && last.stamp.link.Some?
               && r == if CanSign(env, last, l.state.signer.value, clock) then Authenticated else NotAuthenticated
  {
    var current, next := l.state.signer.value, candidate.signer;
    WriteEventsKeep(env, l, pending);
    var before := WriteRecord(WriteEvents(env, l, pending), time, Info, env.announce(current, next), Rotation(current, next));
    AnchorIsSigned(env, before, time, clock);
    WriteAnchorIsRecord(env, before, time, clock);
  }

  /** What becomes of any other call, which writes nothing. */
  lemma OtherRotations(env: Env, l: Log, candidate: Candidate, pending: seq<Call>, time: int, clock: int)
    requires !Replaces(l.state, candidate)
    ensures var (l', r) := Rotate(env, l, candidate, pending, time, clock);
            && (r == LoadFailed <==> candidate.LoadError?)
            && (r == StillUnsigned <==> candidate.NoCertificate? && l.state.signer == None)
            && (r == CannotDisable <==> candidate.NoCertificate? && l.state.signer.Some?)
            && (r == Installed <==> candidate.Loaded? && l.state.signer == None)
            && (r == Unchanged <==> candidate.Loaded? && l.state.signer.Some?
                                    && l.state.signer.value.certificate == candidate.signer.certificate)
            && (r == NeedsChain <==> candidate.Loaded? && l.state.signer.Some?
                                     && l.state.signer.value.certificate != candidate.signer.certificate)
            && l' == l.(state := l.state.(signer := if r == Installed then Some(candidate.signer) else l.state.signer))
  {
  }
}

/**
 * A verifier that reads a log record by record, and the proof that every log the writer can produce chains on. It
 * checks what tests/env/verify_log_chain.py and doc/Logging.md ask for: consecutive numbers, body hashes, chain
 * links, anchor windows that tile, signed statements, and signers announced in a body that their predecessor signed.
 * Unlike the script, which reads one segment of hashed records of one run, it reads the whole output of a process:
 * it passes over records written while hashing was off, wherever they stand, and does not compare run identities.
 * A log is accepted if, in addition, every segment starts from the genesis value of the process that its records
 * name. The length of an open window is not checked, since records do not state the configured length; that no run
 * leaves a window open that is due is proved of the writer.
 */
module LogVerifier {
  import opened Bytes
  import opened Options
  import opened Integrity
  import opened LogWriter

  /** The segment being read: its algorithm and last chain value, the first number of the open window, and its identities. */
  datatype Segment = Segment(algorithm: Algorithm, chain: Bytes, from: nat, id: nat, window: Option<nat>)

  /** Nothing signed yet, or the signer whose anchors are accepted. */
  datatype Trust = Unpinned | Pinned(signer: Signer)

  /** An announced signer, and the number of the record that announces it. */
  datatype Announcement = Announcement(number: nat, from: Signer, to: Signer)

  /** `newest` is the segment identity drawn last among those read. */
  datatype Reader = Reader(next: nat, segment: Option<Segment>, newest: nat, trust: Trust, announced: Option<Announcement>)

  const FIRST := Reader(0, None, 0, Unpinned, None)

  /** A link continues the segment, or declares a restart under an identity not seen before. */
  ghost predicate Continues(v: Reader, a: Algorithm, link: Link) {
    if link.restart then link.segment > v.newest
    else v.segment.Some? && InSegment(v.segment.value, a, link)
  }

  ghost predicate InSegment(g: Segment, a: Algorithm, link: Link) {
    a == g.algorithm && link.prev == g.chain && link.segment == g.id && (g.window == None || g.window == Some(link.window))
  }

  predicate StampHolds(r: Record)
    requires r.stamp.Stamped?
  {
    && r.stamp.hash == Digest(r.stamp.algorithm, r.body)
    && match r.stamp.link
       case None => true
       case Some(k) =>
         |k.prev| == r.stamp.algorithm.size
         && k.chain == Advance(r.stamp.algorithm, k.prev, FieldsOf(r.stamp.number, r.time, r.level, r.body))
  }

  /** The first number of the window a linked record belongs to. */
  ghost function WindowStart(v: Reader, r: Record): nat
    requires r.stamp.Stamped? && r.stamp.link.Some? && Continues(v, r.stamp.algorithm, r.stamp.link.value)
  {
    if r.stamp.link.value.restart then r.stamp.number else v.segment.value.from
  }

  predicate CheckpointHolds(env: Env, v: Reader, r: Record, a: Anchor)
    requires r.stamp.Stamped? && r.stamp.link.Some?
  {
    a.checkpoint.Signed? ==>
      (v.trust == Unpinned || v.trust == Pinned(a.checkpoint.signer))
      && env.sign(a.checkpoint.signer, CheckpointHash(env, r.identity, r.stamp, a.checkpoint.signer, a.from, a.to))
         == Some(a.checkpoint.signature)
  }

  /** An anchor covers the whole open window, up to itself, and is no longer than configured. */
  ghost predicate AnchorHolds(env: Env, v: Reader, r: Record, a: Anchor)
    requires r.stamp.Stamped? && r.stamp.link.Some? && Continues(v, r.stamp.algorithm, r.stamp.link.value)
  {
    && r.body == ANCHOR_BODY && a.from == WindowStart(v, r) && a.to == r.stamp.number
    && a.from <= a.to <= a.from + a.length
    && CheckpointHolds(env, v, r, a)
  }

  /** A signed anchor hands trust to the signer that its window announces, if any. */
  function TrustAfter(v: Reader, a: Anchor): Trust {
    if !a.checkpoint.Signed? then v.trust
    else if v.announced.Some? && v.announced.value.from == a.checkpoint.signer && a.from <= v.announced.value.number <= a.to
    then Pinned(v.announced.value.to)
    else Pinned(a.checkpoint.signer)
  }

  /** The hashed body of an announcement is the text that names the successor; the event tag alone says nothing. */
  predicate Announces(env: Env, r: Record) {
    r.event.Rotation? ==> r.body == env.announce(r.event.from, r.event.to)
  }

  /** All checks but that of the genesis value. */
  ghost predicate Chains(env: Env, v: Reader, r: Record) {
    Announces(env, r) &&
    match r.stamp
    case Unstamped => r.event.General?
    case Stamped(a, _, number, _, link) =>
      && number == v.next && StampHolds(r)
      && match link
         case None => r.event.General?
         case Some(k) => Continues(v, a, k) && (r.event.Closing? ==> AnchorHolds(env, v, r, r.event.anchor))
  }

  /** The reader after a record that chains on. */
  ghost function Read(env: Env, v: Reader, r: Record): Reader
    requires Chains(env, v, r)
  {
    match r.stamp
    case Unstamped => v.(segment := None, announced := None)
    case Stamped(_, _, number, _, None) => v.(next := number + 1, segment := None, announced := None)
    case Stamped(a, _, number, _, Some(k)) =>
      var g := Segment(a, k.chain, WindowStart(v, r), k.segment, Some(k.window));
      var v' := v.(next := number + 1, segment := Some(g), newest := k.segment);
      match r.event
      case General => v'
      case Rotation(from, to) => v'.(announced := Some(Announcement(number, from, to)))
      case Closing(anchor) =>
        v'.(segment := Some(g.(from := number + 1, window := None)), trust := TrustAfter(v, anchor), announced := None)
  }

  /** The reader after a whole log; None if a record does not chain on. */
  ghost function ReadChain(env: Env, records: seq<Record>): Option<Reader> {
    if records == [] then Some(FIRST)
    else
      var r := records[|records| - 1];
      match ReadChain(env, records[..|records| - 1])
      case None => None
      case Some(v) => if Chains(env, v, r) then Some(Read(env, v, r)) else None
  }

  predicate Restarts(r: Record) {
    r.stamp.Stamped? && r.stamp.link.Some? && r.stamp.link.value.restart
  }

  /** A restart record starts from the genesis value of the process it names. */
  predicate Bound(r: Record) {
    Restarts(r) ==> r.stamp.link.value.prev == Genesis(r.stamp.algorithm, r.identity)
  }

  predicate AllBound(records: seq<Record>) {
    records == [] || (AllBound(records[..|records| - 1]) && Bound(records[|records| - 1]))
  }

  /** All checks. */
  ghost predicate Accepts(env: Env, v: Reader, r: Record) {
    Chains(env, v, r) && Bound(r)
  }

  /** The reader after a whole log; None if it rejects a record. */
  ghost function ReadAll(env: Env, records: seq<Record>): Option<Reader> {
    if records == [] then Some(FIRST)
    else
      var r := records[|records| - 1];
      match ReadAll(env, records[..|records| - 1])
      case None => None
      case Some(v) => if Accepts(env, v, r) then Some(Read(env, v, r)) else None
  }

  /** A log is accepted exactly when it chains and all its restarts are bound. */
  lemma {:induction false} AcceptedIff(env: Env, records: seq<Record>)
    ensures ReadAll(env, records) == if AllBound(records) then ReadChain(env, records) else None
  {
    if records != [] { AcceptedIff(env, records[..|records| - 1]); }
  }

  // What the reader knows of the writer

  predicate Numbered(s: State) {
    && (Chaining(s) ==> s.anchorFrom + s.sinceAnchor == s.number && (s.restartPending ==> s.sinceAnchor == 0))
    && (Chaining(s) ==> |s.chain| == s.algorithm.value.size)
    && s.segment <= s.drawn
  }

  /** Between calls, the window has room for a record. */
  predicate Roomy(s: State) {
    Chaining(s) ==> s.sinceAnchor < s.chainLen
  }

  ghost predicate Follows(v: Reader, s: State) {
    && v.next == s.number && v.newest <= s.drawn
    && (s.restartPending ==> v.newest < s.segment)
    && (Chaining(s) && !s.restartPending ==> v.segment.Some? && Mirrors(v.segment.value, s) && v.newest == s.segment)
    && match s.signer
       case None => v.trust == Unpinned
       case Some(signer) => v.trust == Unpinned || v.trust == Pinned(signer)
  }

  ghost predicate Mirrors(g: Segment, s: State)
    requires s.algorithm.Some?
  {
    g.algorithm == s.algorithm.value && g.chain == s.chain && g.id == s.segment && g.from == s.anchorFrom
    && (g.window == None || g.window == Some(s.window))
  }

  /** The log chains so far, and the reader is in this state. */
  ghost predicate Has(env: Env, l: Log, v: Reader) {
    ReadChain(env, l.output) == Some(v)
  }

  lemma ReadOne(env: Env, records: seq<Record>, v: Reader, r: Record)
    requires ReadChain(env, records) == Some(v) && Chains(env, v, r)
    ensures ReadChain(env, records + [r]) == Some(Read(env, v, r))
  {
    assert (records + [r])[..|records|] == records;
  }

  predicate Announceable(env: Env, s: State, body: Bytes, event: Event) {
    event.General? || (event.Rotation? && Chaining(s) && body == env.announce(event.from, event.to))
  }

  lemma RecordFollows(env: Env, v: Reader, s: State, time: int, level: Level, body: Bytes, event: Event)
    requires Follows(v, s) && Numbered(s) && Announceable(env, s, body, event)
    ensures var r := Record(s.identity, time, level, body, event, StampOf(s, time, level, body));
            Chains(env, v, r) && Follows(Read(env, v, r), AfterStamp(s, time, level, body))
            && Read(env, v, r).announced
               == if event.Rotation? then Some(Announcement(s.number, event.from, event.to))
                  else if Chaining(s) then v.announced else None
    ensures Numbered(AfterStamp(s, time, level, body))
    ensures Bound(Record(s.identity, time, level, body, event, StampOf(s, time, level, body)))
            <==> (Chaining(s) && s.restartPending ==> s.chain == Genesis(s.algorithm.value, s.identity))
  {
  }

  /** A record that is not an anchor. */
  lemma WriteRecordRead(env: Env, l: Log, v: Reader, time: int, level: Level, body: Bytes, event: Event) returns (v': Reader)
    requires Has(env, l, v) && Follows(v, l.state) && Numbered(l.state) && Announceable(env, l.state, body, event)
    ensures var l' := WriteRecord(l, time, level, body, event);
            Has(env, l', v') && Follows(v', l'.state) && Numbered(l'.state)
    ensures v'.announced == if event.Rotation? then Some(Announcement(l.state.number, event.from, event.to))
                            else if Chaining(l.state) then v.announced else None
  {
    var s := l.state;
    var r := Record(s.identity, time, level, body, event, StampOf(s, time, level, body));
    RecordFollows(env, v, s, time, level, body, event);
    ReadOne(env, l.output, v, r);
    v' := Read(env, v, r);
  }

  /** The record writeAnchorLocked writes. */
  function AnchorRecord(env: Env, s: State, time: int, clock: int): Record {
    var armed := s.(anchorFrom := s.number + 1);
    var stamp := StampOf(armed, time, Info, ANCHOR_BODY);
    var checkpoint := SignAnchor(env, armed, stamp, s.anchorFrom, s.number, clock);
    Record(s.identity, time, Info, ANCHOR_BODY, Closing(Anchor(s.anchorFrom, s.number, s.chainLen, checkpoint)), stamp)
  }

  function AfterAnchor(s: State, time: int): State {
    FinishAnchor(AfterStamp(s.(anchorFrom := s.number + 1), time, Info, ANCHOR_BODY))
  }

  lemma WriteAnchorIsRecord(env: Env, l: Log, time: int, clock: int)
    ensures WriteAnchor(env, l, time, clock)
            == Log(AfterAnchor(l.state, time), l.output + [AnchorRecord(env, l.state, time, clock)])
    ensures AnchorError(env, l, time, clock)
            == AnchorRecord(env, l.state, time, clock).event.anchor.checkpoint.SignatureError?
  {
  }

  /** A window that may be closed: chained, begun, and no longer than configured. */
  predicate Closable(s: State) {
    Chaining(s) && 1 <= s.sinceAnchor <= s.chainLen
  }

  lemma AnchorChains(env: Env, v: Reader, s: State, time: int, clock: int)
    requires Follows(v, s) && Numbered(s) && Closable(s)
    ensures var r := AnchorRecord(env, s, time, clock);
            Chains(env, v, r) && Read(env, v, r).announced == None
            && Read(env, v, r).trust == TrustAfter(v, r.event.anchor)
            && Follows(Read(env, v, r).(trust := v.trust), AfterAnchor(s, time))
    ensures Numbered(AfterAnchor(s, time)) && Roomy(AfterAnchor(s, time))
  {
  }

  /** Who signs once an announced signer is authenticated. */
  function NextSigner(v: Reader, s: State, failed: bool): Option<Signer> {
    if !failed && s.signer.Some? && v.announced.Some? then Some(v.announced.value.to) else s.signer
  }

  /** Nothing is announced in the window, or the successor of the current signer by the last record. */
  predicate Announced(v: Reader, s: State) {
    match v.announced
    case None => true
    case Some(a) => s.signer == Some(a.from) && a.number + 1 == s.number
  }

  /** The anchor that closes a window hands trust to the signer announced in it. */
  lemma WriteAnchorRead(env: Env, l: Log, v: Reader, time: int, clock: int) returns (v': Reader)
    requires Has(env, l, v) && Follows(v, l.state) && Numbered(l.state) && Closable(l.state) && Announced(v, l.state)
    ensures var l' := WriteAnchor(env, l, time, clock);
            Has(env, l', v') && v'.announced == None && Numbered(l'.state) && Roomy(l'.state)
            && Follows(v', l'.state.(signer := NextSigner(v, l.state, AnchorError(env, l, time, clock))))
  {
    var r := AnchorRecord(env, l.state, time, clock);
    WriteAnchorIsRecord(env, l, time, clock);
    AnchorChains(env, v, l.state, time, clock);
    ReadOne(env, l.output, v, r);
    v' := Read(env, v, r);
  }

  /** Between calls: chained so far, in step, and with nothing announced. */
  ghost predicate Settled(env: Env, l: Log, v: Reader) {
    Has(env, l, v) && Follows(v, l.state) && Numbered(l.state) && Roomy(l.state) && v.announced == None
  }

  lemma WriteEventRead(env: Env, l: Log, v: Reader, c: Call) returns (v': Reader)
    requires Settled(env, l, v)
    ensures Settled(env, WriteEvent(env, l, c), v')
  {
    v' := WriteRecordRead(env, l, v, c.time, c.level, c.body, General);
    var l' := WriteRecord(l, c.time, c.level, c.body, General);
    if AnchorDue(l'.state) { v' := WriteAnchorRead(env, l', v', c.time, c.clock); }
  }

  lemma {:induction false} WriteEventsRead(env: Env, l: Log, v: Reader, calls: seq<Call>) returns (v': Reader)
    requires Settled(env, l, v)
    ensures Settled(env, WriteEvents(env, l, calls), v')
  {
    v' := v;
    if calls != [] {
      v' := WriteEventsRead(env, l, v, calls[..|calls| - 1]);
      v' := WriteEventRead(env, WriteEvents(env, l, calls[..|calls| - 1]), v', calls[|calls| - 1]);
    }
  }

  /** A new certificate for a signer, while records are chained. */
  predicate Replaces(s: State, candidate: Candidate) {
    candidate.Loaded? && s.signer.Some? && s.signer.value.certificate != candidate.signer.certificate && Chaining(s)
  }

  lemma RotateRead(env: Env, l: Log, v: Reader, candidate: Candidate, pending: seq<Call>, time: int, clock: int)
    returns (v': Reader)
    requires Settled(env, l, v)
    ensures Settled(env, Rotate(env, l, candidate, pending, time, clock).0, v')
  {
    v' := v;
    if Replaces(l.state, candidate) {
      var current, next := l.state.signer.value, candidate.signer;
      v' := WriteEventsRead(env, l, v, pending);
      WriteEventsKeep(env, l, pending);
      var flushed := WriteEvents(env, l, pending);
      v' := WriteRecordRead(env, flushed, v', time, Info, env.announce(current, next), Rotation(current, next));
      var before := WriteRecord(flushed, time, Info, env.announce(current, next), Rotation(current, next));
      v' := WriteAnchorRead(env, before, v', time, clock);
    }
  }

  lemma WriteEventKeeps(env: Env, l: Log, c: Call)
    ensures var s := WriteEvent(env, l, c).state;
            s.signer == l.state.signer && s.algorithm == l.state.algorithm && s.chainLen == l.state.chainLen
            && s.identity == l.state.identity
  {
    WriteAnchorIsRecord(env, WriteRecord(l, c.time, c.level, c.body, General), c.time, c.clock);
  }

  lemma {:induction false} WriteEventsKeep(env: Env, l: Log, calls: seq<Call>)
    ensures var s := WriteEvents(env, l, calls).state;
            s.signer == l.state.signer && s.algorithm == l.state.algorithm && s.chainLen == l.state.chainLen
            && s.identity == l.state.identity
  {
    if calls != [] {
      WriteEventsKeep(env, l, calls[..|calls| - 1]);
      WriteEventKeeps(env, WriteEvents(env, l, calls[..|calls| - 1]), calls[|calls| - 1]);
    }
  }

  // Runs of one process

  datatype Op =
    | Emit(call: Call)
    | SetHash(name: HashName)
    | SetChainLength(length: int)
    | SetInstanceID(instance: Bytes)
    | SetServiceName(service: Bytes)
    | Rotating(candidate: Candidate, pending: seq<Call>, time: int, clock: int)

  /** The calls that reconfigure flush repeat summaries first; those are emits before the call. */
  function Step(env: Env, l: Log, op: Op): Log {
    match op
    case Emit(c) => WriteEvent(env, l, c)
    case SetHash(name) => l.(state := ConfigureHash(l.state, name))
    case SetChainLength(n) => l.(state := ConfigureChainLength(l.state, n))
    case SetInstanceID(id) => l.(state := Reset(l.state.(identity := l.state.identity.(instance := id))))
    case SetServiceName(name) => l.(state := l.state.(identity := l.state.identity.(service := name)))
    case Rotating(candidate, pending, time, clock) => Rotate(env, l, candidate, pending, time, clock).0
  }

  function Run(env: Env, identity: Identity, ops: seq<Op>): Log {
    if ops == [] then Log(Initial(identity), [])
    else Step(env, Run(env, identity, ops[..|ops| - 1]), ops[|ops| - 1])
  }

  lemma ResetSettled(env: Env, l: Log, v: Reader, s: State)
    requires Settled(env, l, v) && s.number == l.state.number && s.drawn == l.state.drawn && s.signer == l.state.signer
    ensures Settled(env, l.(state := Reset(s)), v)
  {
  }

  lemma StepRead(env: Env, l: Log, v: Reader, op: Op) returns (v': Reader)
    requires Settled(env, l, v)
    ensures Settled(env, Step(env, l, op), v')
  {
    v' := v;
    match op
    case Emit(c) => v' := WriteEventRead(env, l, v, c);
    case SetHash(name) => if name.Supported? { ResetSettled(env, l, v, l.state.(algorithm := Some(name.algorithm))); }
    case SetChainLength(n) => if n >= 0 { ResetSettled(env, l, v, l.state.(chainLen := n)); }
    case SetInstanceID(id) => ResetSettled(env, l, v, l.state.(identity := l.state.identity.(instance := id)));
    case SetServiceName(_) =>
    case Rotating(candidate, pending, time, clock) => v' := RotateRead(env, l, v, candidate, pending, time, clock);
  }

  /**
   * Every log that a run of messages, reconfigurations and rotations can produce chains, and the reader then
   * knows the writer's next number, its open window, its last chain value and its signer.
   */
  lemma {:induction false} EveryRunChains(env: Env, identity: Identity, ops: seq<Op>) returns (v: Reader)
    ensures var l := Run(env, identity, ops);
            ReadChain(env, l.output) == Some(v) && Follows(v, l.state) && Numbered(l.state) && Roomy(l.state)
            && v.announced == None
  {
    if ops == [] {
      v := FIRST;
    } else {
      var before := Run(env, identity, ops[..|ops| - 1]);
      v := EveryRunChains(env, identity, ops[..|ops| - 1]);
      v := StepRead(env, before, v, ops[|ops| - 1]);
    }
  }

  /** Every anchor that is due is written: after any operations of a run, the open window is short of the chain length. */
  lemma NoAnchorIsDue(env: Env, identity: Identity, ops: seq<Op>) returns (v: Reader)
    ensures var l := Run(env, identity, ops);
            ReadChain(env, l.output) == Some(v)
            && (Chaining(l.state) && !l.state.restartPending ==>
                  v.segment.Some? && 0 <= v.next - v.segment.value.from < l.state.chainLen)
  {
    v := EveryRunChains(env, identity, ops);
  }
}

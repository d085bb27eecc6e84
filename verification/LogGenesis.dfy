/**
 * The genesis value binds a segment of the log to the process that writes it. SetServiceName renames the process
 * without a new segment, so a log is accepted exactly if no segment is opened under a name other than that of its
 * genesis value; and a segment of an accepted log cannot be spliced into the log of another process.
 */
module LogGenesis {
  import opened Bytes
  import opened Options
  import opened Integrity
  import opened LogWriter
  import opened LogVerifier
  import opened LogWindows
  import opened Tampering

  // What a genesis value says

  const NUL: byte := 0

  /** What a genesis input holds behind the domain. */
  const GENESIS := Ascii("genesis") + [NUL]

  /** No zero byte in a name. */
  predicate Nameable(id: Identity) {
    NUL !in id.service && NUL !in id.instance
  }

  /** The start time is an int64. */
  predicate Started(id: Identity) {
    Signing.IsSigned(id.startNano, LONG)
  }

  /** The names of a process with the zero byte between them. */
  function Names(id: Identity): Bytes {
    id.service + ([NUL] + id.instance)
  }

  lemma NamesLast(id: Identity)
    ensures GenesisInput(id) == CHAIN_DOMAIN + [0] + GENESIS + (Names(id) + ([NUL] + Put(id.startNano, LONG)))
  {
  }

  /** One start time, and names that run together alike; nobody else, if the names of either hold no zero byte. */
  predicate Alike(i: Identity, j: Identity) {
    Names(i) == Names(j) && i.startNano == j.startNano && (Nameable(i) || Nameable(j) ==> i == j)
  }

  /** Two processes have one genesis input exactly if they have one start time and their names run together alike. */
  lemma SameGenesisInputIff(i: Identity, j: Identity)
    requires Started(i) && Started(j)
    ensures GenesisInput(i) == GenesisInput(j) <==> Names(i) == Names(j) && i.startNano == j.startNano
  {
    NamesLast(i);
    NamesLast(j);
    var head := CHAIN_DOMAIN + [0] + GENESIS;
    var it, jt := [NUL] + Put(i.startNano, LONG), [NUL] + Put(j.startNano, LONG);
    if GenesisInput(i) == GenesisInput(j) {
      Signing.Cut(head, Names(i) + it, head, Names(j) + jt);
      assert |Names(i)| == |Names(j)|;
      Signing.Cut(Names(i), it, Names(j), jt);
      Signing.Cut([NUL], Put(i.startNano, LONG), [NUL], Put(j.startNano, LONG));
      Signing.PutInjective(i.startNano, j.startNano, LONG);
    }
  }

  lemma NotBehind(a: Bytes, x: Bytes, b: Bytes, y: Bytes)
    requires a + ([NUL] + x) == b + ([NUL] + y)
    ensures |b| > |a| ==> NUL in x
    ensures |b| < |a| ==> NUL in a
  {
    if |b| > |a| { assert x[|b| - |a| - 1] == (b + ([NUL] + y))[|b|]; }
    if |b| < |a| { assert a[|b|] == (b + ([NUL] + y))[|b|]; }
  }

  /** The first name ends at the first zero byte, if that is the only one. */
  lemma OneNul(a: Bytes, x: Bytes, b: Bytes, y: Bytes)
    requires NUL !in a && NUL !in x && a + ([NUL] + x) == b + ([NUL] + y)
    ensures a == b && x == y
  {
    NotBehind(a, x, b, y);
    Signing.Cut(a, [NUL] + x, b, [NUL] + y);
    Signing.Cut([NUL], x, [NUL], y);
  }

  /** A process whose names hold no zero byte shares its genesis input with no other, whatever the names of that one. */
  lemma GenesisInputInjective(i: Identity, j: Identity)
    requires Nameable(i) && Started(i) && Started(j) && GenesisInput(i) == GenesisInput(j)
    ensures i == j
  {
    SameGenesisInputIff(i, j);
    OneNul(i.service, i.instance, j.service, j.instance);
  }

  lemma SameInputAlike(i: Identity, j: Identity)
    requires Started(i) && Started(j) && GenesisInput(i) == GenesisInput(j)
    ensures Alike(i, j)
  {
    SameGenesisInputIff(i, j);
    if Nameable(i) { GenesisInputInjective(i, j); }
    if Nameable(j) { GenesisInputInjective(j, i); }
  }

  function IndexOf(b: Bytes, x: byte): (i: nat)
    requires x in b
    ensures i < |b| && b[i] == x
  {
    if b[0] == x then 0 else 1 + IndexOf(b[1..], x)
  }

  /** Another process with the same genesis input: the names divided at a zero byte inside one of them. */
  function Divided(id: Identity): Identity
    requires !Nameable(id)
  {
    if NUL in id.service then
      var k := IndexOf(id.service, NUL);
      id.(service := id.service[..k], instance := id.service[k + 1..] + ([NUL] + id.instance))
    else
      var k := IndexOf(id.instance, NUL);
      id.(service := id.service + ([NUL] + id.instance[..k]), instance := id.instance[k + 1..])
  }

  lemma CutAt(b: Bytes, k: nat)
    requires k < |b| && b[k] == NUL
    ensures b == b[..k] + ([NUL] + b[k + 1..])
  {
  }

  lemma Regroup(a: Bytes, b: Bytes, c: Bytes)
    ensures (a + ([NUL] + b)) + ([NUL] + c) == a + ([NUL] + (b + ([NUL] + c)))
  {
  }

  lemma DividedNames(id: Identity)
    requires !Nameable(id)
    ensures Names(Divided(id)) == Names(id) && |Divided(id).service| != |id.service|
  {
    if NUL in id.service {
      var k := IndexOf(id.service, NUL);
      CutAt(id.service, k);
      Regroup(id.service[..k], id.service[k + 1..], id.instance);
    } else {
      var k := IndexOf(id.instance, NUL);
      CutAt(id.instance, k);
      Regroup(id.service, id.instance[..k], id.instance[k + 1..]);
    }
  }

  lemma DividedIsConfused(id: Identity)
    requires !Nameable(id) && Started(id)
    ensures Divided(id) != id && Started(Divided(id)) && GenesisInput(Divided(id)) == GenesisInput(id)
  {
    DividedNames(id);
    SameGenesisInputIff(Divided(id), id);
  }

  /** The genesis input determines its process exactly if neither name holds a zero byte. */
  lemma GenesisNamesProcessIff(i: Identity)
    requires Started(i)
    ensures (forall j :: Started(j) && GenesisInput(j) == GenesisInput(i) ==> j == i) <==> Nameable(i)
  {
    if Nameable(i) {
      forall j | Started(j) && GenesisInput(j) == GenesisInput(i) ensures j == i { GenesisInputInjective(i, j); }
    } else {
      DividedIsConfused(i);
    }
  }

  /** For one instance and start time, the input names the service whatever its bytes. */
  lemma RenamedInput(id: Identity, name: Bytes)
    ensures GenesisInput(id) == GenesisInput(id.(service := name)) <==> id.service == name
  {
    var head := CHAIN_DOMAIN + [0] + Ascii("genesis") + [0];
    var tail := [0] + (id.instance + ([0] + Put(id.startNano, LONG)));
    if GenesisInput(id) == GenesisInput(id.(service := name)) {
      Signing.Cut(head, id.service + tail, head, name + tail);
      assert |id.service| == |name|;
      Signing.Cut(id.service, tail, name, tail);
    }
  }

  // Which runs are bound

  /** The next record opens a segment. */
  predicate Opens(s: State) {
    Chaining(s) && s.restartPending
  }

  function Renamed(s: State, name: Bytes): Identity {
    s.identity.(service := name)
  }

  /** The segment to be opened starts from the genesis value of the process under a name. */
  ghost predicate BoundTo(s: State, name: Bytes) {
    Opens(s) ==> s.chain == Genesis(s.algorithm.value, Renamed(s, name))
  }

  /** The process still has the name, or its two names have colliding genesis inputs. */
  predicate NamedAs(s: State, name: Bytes) {
    Opens(s) ==>
      s.identity.service == name || Collide(s.algorithm.value, GenesisInput(s.identity), GenesisInput(Renamed(s, name)))
  }

  /** The record that opens a segment is bound exactly if the process has the name of its genesis value, or they collide. */
  lemma RecordIsBoundIff(s: State, name: Bytes, time: int, level: Level, body: Bytes, event: Event)
    requires BoundTo(s, name)
    ensures Bound(Record(s.identity, time, level, body, event, StampOf(s, time, level, body))) <==> NamedAs(s, name)
    ensures !Opens(AfterStamp(s, time, level, body))
  {
    RenamedInput(s.identity, name);
    if s.identity.service == name { assert Renamed(s, name) == s.identity; }
  }

  lemma AllBoundSnoc(records: seq<Record>, r: Record)
    ensures AllBound(records + [r]) <==> AllBound(records) && Bound(r)
  {
    assert (records + [r])[..|records|] == records;
  }

  lemma WriteRecordBinds(l: Log, name: Bytes, time: int, level: Level, body: Bytes, event: Event)
    requires BoundTo(l.state, name)
    ensures var l' := WriteRecord(l, time, level, body, event);
            !Opens(l'.state) && (AllBound(l'.output) <==> AllBound(l.output) && NamedAs(l.state, name))
  {
    RecordIsBoundIff(l.state, name, time, level, body, event);
    AllBoundSnoc(l.output, Record(l.state.identity, time, level, body, event, StampOf(l.state, time, level, body)));
  }

  lemma WriteAnchorBinds(env: Env, l: Log, time: int, clock: int)
    requires !Opens(l.state)
    ensures var l' := WriteAnchor(env, l, time, clock);
            !Opens(l'.state) && (AllBound(l'.output) <==> AllBound(l.output))
  {
    var r := AnchorRecord(env, l.state, time, clock);
    WriteAnchorIsRecord(env, l, time, clock);
    AllBoundSnoc(l.output, r);
  }

  lemma WriteEventBinds(env: Env, l: Log, name: Bytes, c: Call)
    requires BoundTo(l.state, name)
    ensures var l' := WriteEvent(env, l, c);
            !Opens(l'.state) && (AllBound(l'.output) <==> AllBound(l.output) && NamedAs(l.state, name))
  {
    WriteRecordBinds(l, name, c.time, c.level, c.body, General);
    var l1 := WriteRecord(l, c.time, c.level, c.body, General);
    if AnchorDue(l1.state) { WriteAnchorBinds(env, l1, c.time, c.clock); }
  }

  lemma {:induction false} WriteEventsBind(env: Env, l: Log, name: Bytes, calls: seq<Call>)
    requires BoundTo(l.state, name)
    ensures var l' := WriteEvents(env, l, calls);
            if calls == [] then l' == l
            else !Opens(l'.state) && (AllBound(l'.output) <==> AllBound(l.output) && NamedAs(l.state, name))
  {
    if calls != [] {
      var n := |calls| - 1;
      WriteEventsBind(env, l, name, calls[..n]);
      WriteEventBinds(env, WriteEvents(env, l, calls[..n]), name, calls[n]);
    }
  }

  lemma RotateBinds(env: Env, l: Log, name: Bytes, candidate: Candidate, pending: seq<Call>, time: int, clock: int)
    requires BoundTo(l.state, name) && Replaces(l.state, candidate)
    ensures var l' := Rotate(env, l, candidate, pending, time, clock).0;
            !Opens(l'.state) && (AllBound(l'.output) <==> AllBound(l.output) && NamedAs(l.state, name))
  {
    var current, next := l.state.signer.value, candidate.signer;
    WriteEventsBind(env, l, name, pending);
    var flushed := WriteEvents(env, l, pending);
    var before := WriteRecord(flushed, time, Info, env.announce(current, next), Rotation(current, next));
    WriteRecordBinds(flushed, name, time, Info, env.announce(current, next), Rotation(current, next));
    WriteAnchorBinds(env, before, time, clock);
  }

  lemma RotateSilent(env: Env, l: Log, candidate: Candidate, pending: seq<Call>, time: int, clock: int)
    requires !Replaces(l.state, candidate)
    ensures var l' := Rotate(env, l, candidate, pending, time, clock).0;
            l'.output == l.output && l'.state == l.state.(signer := l'.state.signer)
  {
  }

  /** Whether an operation writes a record. */
  predicate Writes(s: State, op: Op) {
    op.Emit? || (op.Rotating? && Replaces(s, op.candidate))
  }

  /** Whether an operation restarts the chain. */
  predicate Resets(op: Op) {
    match op
    case SetHash(name) => name.Supported?
    case SetChainLength(n) => n >= 0
    case SetInstanceID(_) => true
    case _ => false
  }

  function ServiceAfter(identity: Identity, ops: seq<Op>): Bytes {
    if ops == [] then identity.service
    else if ops[|ops| - 1].SetServiceName? then ops[|ops| - 1].service
    else ServiceAfter(identity, ops[..|ops| - 1])
  }

  /** The name of the process at the last restart of the chain. */
  function NameAtReset(identity: Identity, ops: seq<Op>): Bytes {
    if ops == [] then identity.service
    else if Resets(ops[|ops| - 1]) then ServiceAfter(identity, ops[..|ops| - 1])
    else NameAtReset(identity, ops[..|ops| - 1])
  }

  /** No segment is opened under another name than at its restart, unless the two have colliding genesis inputs. */
  predicate KeepsName(env: Env, identity: Identity, ops: seq<Op>) {
    ops == []
    || (KeepsName(env, identity, ops[..|ops| - 1])
        && var s := Run(env, identity, ops[..|ops| - 1]).state;
           (Writes(s, ops[|ops| - 1]) ==> NamedAs(s, NameAtReset(identity, ops[..|ops| - 1]))))
  }

  lemma StepBinds(env: Env, l: Log, name: Bytes, op: Op)
    requires BoundTo(l.state, name)
    ensures var l' := Step(env, l, op);
            (AllBound(l'.output) <==> AllBound(l.output) && (Writes(l.state, op) ==> NamedAs(l.state, name)))
            && BoundTo(l'.state, if Resets(op) then l.state.identity.service else name)
  {
    match op
    case Emit(c) => WriteEventBinds(env, l, name, c);
    case Rotating(candidate, pending, time, clock) =>
      if Replaces(l.state, candidate) { RotateBinds(env, l, name, candidate, pending, time, clock); }
      else { RotateSilent(env, l, candidate, pending, time, clock); }
    case _ =>
  }

  lemma StepService(env: Env, l: Log, op: Op)
    ensures Step(env, l, op).state.identity.service == if op.SetServiceName? then op.service else l.state.identity.service
  {
    match op
    case Emit(c) => WriteEventKeeps(env, l, c);
    case Rotating(candidate, pending, time, clock) =>
      if Replaces(l.state, candidate) { RotationKeepsIdentity(env, l, candidate, pending, time, clock); }
      else { RotateSilent(env, l, candidate, pending, time, clock); }
    case _ =>
  }

  lemma RotationKeepsIdentity(env: Env, l: Log, candidate: Candidate, pending: seq<Call>, time: int, clock: int)
    requires Replaces(l.state, candidate)
    ensures Rotate(env, l, candidate, pending, time, clock).0.state.identity == l.state.identity
  {
    var current, next := l.state.signer.value, candidate.signer;
    WriteEventsKeep(env, l, pending);
    WriteAnchorIsRecord(
      env, WriteRecord(WriteEvents(env, l, pending), time, Info, env.announce(current, next), Rotation(current, next)),
      time, clock);
  }

  lemma {:induction false} RunServiceIs(env: Env, identity: Identity, ops: seq<Op>)
    ensures Run(env, identity, ops).state.identity.service == ServiceAfter(identity, ops)
  {
    if ops != [] {
      RunServiceIs(env, identity, ops[..|ops| - 1]);
      StepService(env, Run(env, identity, ops[..|ops| - 1]), ops[|ops| - 1]);
    }
  }

  /** In every run, all restart records are bound exactly if no segment is opened under another name. */
  lemma {:induction false} RunIsBoundIff(env: Env, identity: Identity, ops: seq<Op>)
    ensures AllBound(Run(env, identity, ops).output) <==> KeepsName(env, identity, ops)
    ensures BoundTo(Run(env, identity, ops).state, NameAtReset(identity, ops))
  {
    if ops != [] {
      var before, op := ops[..|ops| - 1], ops[|ops| - 1];
      RunIsBoundIff(env, identity, before);
      StepBinds(env, Run(env, identity, before), NameAtReset(identity, before), op);
      RunServiceIs(env, identity, before);
    }
  }

  /** Every run's log is accepted exactly if the run keeps its names; the reader then knows the writer. */
  lemma EveryRunIsAcceptedIff(env: Env, identity: Identity, ops: seq<Op>) returns (v: Reader)
    ensures var l := Run(env, identity, ops);
            ReadAll(env, l.output) == (if KeepsName(env, identity, ops) then Some(v) else None)
            && Follows(v, l.state) && Numbered(l.state) && Roomy(l.state) && v.announced == None
  {
    v := EveryRunChains(env, identity, ops);
    RunIsBoundIff(env, identity, ops);
    AcceptedIff(env, Run(env, identity, ops).output);
  }

  predicate NeverRenames(ops: seq<Op>) {
    forall i :: 0 <= i < |ops| ==> !ops[i].SetServiceName?
  }

  lemma {:induction false} NeverRenamesKeepsName(env: Env, identity: Identity, ops: seq<Op>)
    requires NeverRenames(ops)
    ensures ServiceAfter(identity, ops) == NameAtReset(identity, ops) == identity.service
    ensures KeepsName(env, identity, ops)
  {
    if ops != [] {
      NeverRenamesKeepsName(env, identity, ops[..|ops| - 1]);
      RunServiceIs(env, identity, ops[..|ops| - 1]);
    }
  }

  /** Without SetServiceName, every run's log is accepted. */
  lemma UnrenamedRunIsAccepted(env: Env, identity: Identity, ops: seq<Op>) returns (v: Reader)
    requires NeverRenames(ops)
    ensures ReadAll(env, Run(env, identity, ops).output) == Some(v)
  {
    v := EveryRunIsAcceptedIff(env, identity, ops);
    NeverRenamesKeepsName(env, identity, ops);
  }

  /** A run whose process is renamed between the restart of the chain and the first chained record. */
  function RenamedRun(a: Algorithm, length: int, name: Bytes, c: Call): seq<Op> {
    [SetHash(Supported(a)), SetChainLength(length), SetServiceName(name), Emit(c)]
  }

  lemma RunOn(env: Env, identity: Identity, ops: seq<Op>, op: Op)
    ensures Run(env, identity, ops + [op]) == Step(env, Run(env, identity, ops), op)
    ensures KeepsName(env, identity, ops + [op])
            <==> KeepsName(env, identity, ops)
                 && (Writes(Run(env, identity, ops).state, op) ==>
                       NamedAs(Run(env, identity, ops).state, NameAtReset(identity, ops)))
    ensures NameAtReset(identity, ops + [op])
            == if Resets(op) then ServiceAfter(identity, ops) else NameAtReset(identity, ops)
  {
    assert (ops + [op])[..|ops|] == ops;
  }

  /** The steps of such a run, one by one, and when it keeps its name. */
  lemma RenamedSteps(env: Env, identity: Identity, a: Algorithm, length: int, name: Bytes, c: Call) returns (l: Log)
    requires length > 0
    ensures Opens(l.state) && l.output == [] && l.state.identity == identity.(service := name)
    ensures l.state.algorithm == Some(a) && l.state.chain == Genesis(a, identity)
    ensures Run(env, identity, RenamedRun(a, length, name, c)) == WriteEvent(env, l, c)
    ensures KeepsName(env, identity, RenamedRun(a, length, name, c)) <==> NamedAs(l.state, identity.service)
  {
    var o0: seq<Op> := [];
    var o1 := o0 + [SetHash(Supported(a))];
    var o2 := o1 + [SetChainLength(length)];
    var o3 := o2 + [SetServiceName(name)];
    RunOn(env, identity, o0, SetHash(Supported(a)));
    RunOn(env, identity, o1, SetChainLength(length));
    RunOn(env, identity, o2, SetServiceName(name));
    RunOn(env, identity, o3, Emit(c));
    RunServiceIs(env, identity, o1);
    assert o3 + [Emit(c)] == RenamedRun(a, length, name, c);
    l := Run(env, identity, o3);
  }

  lemma FirstOutput(env: Env, l: Log, c: Call)
    requires l.output == []
    ensures WriteEvent(env, l, c).output != []
    ensures WriteEvent(env, l, c).output[0]
            == Record(l.state.identity, c.time, c.level, c.body, General, StampOf(l.state, c.time, c.level, c.body))
  {
    WriteAnchorIsRecord(env, WriteRecord(l, c.time, c.level, c.body, General), c.time, c.clock);
  }

  /** The first record of a log, written by a process that a segment was opened for under another name. */
  lemma FirstIsAcceptedIff(env: Env, identity: Identity, ops: seq<Op>, l: Log, a: Algorithm, name: Bytes, c: Call)
    requires Opens(l.state) && l.output == [] && l.state.identity == identity.(service := name)
    requires l.state.algorithm == Some(a) && l.state.chain == Genesis(a, identity)
    requires Run(env, identity, ops) == WriteEvent(env, l, c) && (KeepsName(env, identity, ops) <==> NamedAs(l.state, identity.service))
    ensures var out := Run(env, identity, ops).output;
            && out != [] && Restarts(out[0]) && out[0].identity == identity.(service := name)
            && out[0].stamp.algorithm == a && out[0].stamp.link.value.prev == Genesis(a, identity)
            && (ReadAll(env, out).Some?
                <==> name == identity.service || Collide(a, GenesisInput(identity.(service := name)), GenesisInput(identity)))
  {
    var v := EveryRunIsAcceptedIff(env, identity, ops);
    assert Renamed(l.state, identity.service) == identity;
    FirstOutput(env, l, c);
  }

  /**
   * Its first record names the new process and starts from the genesis value of the old one, so its log is accepted
   * only if the name is the same or the two genesis inputs collide.
   */
  lemma RenamedRunIsAcceptedIff(env: Env, identity: Identity, a: Algorithm, length: int, name: Bytes, c: Call)
    requires length > 0
    ensures var out := Run(env, identity, RenamedRun(a, length, name, c)).output;
            && out != [] && Restarts(out[0]) && out[0].identity == identity.(service := name)
            && out[0].stamp.algorithm == a && out[0].stamp.link.value.prev == Genesis(a, identity)
            && (ReadAll(env, out).Some?
                <==> name == identity.service || Collide(a, GenesisInput(identity.(service := name)), GenesisInput(identity)))
  {
    var l := RenamedSteps(env, identity, a, length, name, c);
    FirstIsAcceptedIff(env, identity, RenamedRun(a, length, name, c), l, a, name, c);
  }

  // No splicing

  /**
   * Segments of one start value were opened by one process, or two genesis inputs collide; if neither process has
   * names without zero bytes, by two whose names run together alike.
   */
  lemma SameStartSameProcess(p: Record, q: Record)
    requires Restarts(p) && Restarts(q) && Bound(p) && Bound(q) && p.stamp.algorithm == q.stamp.algorithm
    requires Started(p.identity) && Started(q.identity) && LinkOf(p).prev == LinkOf(q).prev
    ensures Alike(p.identity, q.identity)
            || Collide(p.stamp.algorithm, GenesisInput(p.identity), GenesisInput(q.identity))
  {
    if GenesisInput(p.identity) == GenesisInput(q.identity) { SameInputAlike(p.identity, q.identity); }
  }

  /** Every chained record belongs to a segment: a stretch of chained records that starts with a restart. */
  lemma {:induction false} SegmentStarts(env: Env, records: seq<Record>, v: Reader, k: nat) returns (j: nat)
    requires ReadChain(env, records) == Some(v) && k < |records| && Linked(records[k])
    ensures Stretch(records, j, k) && Restarts(records[j])
  {
    if LinkOf(records[k]).restart {
      j := k;
    } else {
      var before := Before(env, records, v, k);
      var earlier := ReadLast(env, records[..k], before);
      SegmentAfter(env, earlier, records[..k][k - 1]);
      j := SegmentStarts(env, records, v, k - 1);
    }
  }

  lemma {:induction false} SegmentAlgorithm(env: Env, records: seq<Record>, v: Reader, j: nat, k: nat)
    requires ReadChain(env, records) == Some(v) && Stretch(records, j, k)
    ensures OneAlgorithm(records, j, k, records[k].stamp.algorithm)
    decreases k - j
  {
    if j < k {
      SegmentAlgorithm(env, records, v, j, k - 1);
      LinksMeet(env, records, v, k);
    }
  }

  lemma BoundAt(env: Env, records: seq<Record>, i: nat)
    requires AllBound(records) && i < |records|
    ensures Bound(records[i])
    decreases |records|
  {
    if i < |records| - 1 { BoundAt(env, records[..|records| - 1], i); }
  }

  /** The history of the segment that holds record k, from its restart at j. */
  lemma SegmentCommits(env: Env, records: seq<Record>, v: Reader, k: nat) returns (j: nat)
    requires ReadAll(env, records) == Some(v) && k < |records| && Linked(records[k])
    ensures Stretch(records, j, k) && Restarts(records[j]) && Bound(records[j]) && AllStamped(records[j..k + 1])
    ensures records[j].stamp.algorithm == records[k].stamp.algorithm
    ensures var a := records[k].stamp.algorithm;
            |LinkOf(records[j]).prev| == a.size
            && LinkOf(records[k]).chain == ChainOf(a, LinkOf(records[j]).prev, History(records[j..k + 1]))
  {
    AcceptedIff(env, records);
    j := SegmentStarts(env, records, v, k);
    SegmentAlgorithm(env, records, v, j, k);
    LinkAdvances(env, records, v, j);
    StretchChain(env, records, v, records[k].stamp.algorithm, j, k);
    BoundAt(env, records, j);
  }

  /** Names so short that no genesis input is as long as the input of a chain step. */
  predicate ShortNames(id: Identity, a: Algorithm) {
    |id.service| + |id.instance| < 2 * a.size + 6
  }

  /** A digest that could stand at the beginning of a genesis input. */
  predicate LikeGenesis(digest: Bytes) {
    digest <= GENESIS || GENESIS <= digest
  }

  lemma OneIsPrefix(a: Bytes, x: Bytes, b: Bytes, y: Bytes)
    requires a + x == b + y
    ensures a <= b || b <= a
  {
    assert |a| <= |b| ==> a == (b + y)[..|a|] == b[..|a|];
    assert |b| <= |a| ==> b == (a + x)[..|b|] == a[..|b|];
  }

  /** A genesis input is the input of a chain step only with long names, behind a value that looks like its beginning. */
  lemma GenesisIsNoStep(id: Identity, a: Algorithm, previous: Bytes, f: Fields)
    requires |previous| == a.size && GenesisInput(id) == ChainInput(previous, f, Digest(a, f.body))
    ensures LikeGenesis(previous) && !ShortNames(id, a)
  {
    var domain := CHAIN_DOMAIN + [NUL];
    var names := id.service + ([0] + (id.instance + ([0] + Put(id.startNano, LONG))));
    var step := Put(f.number, LONG) + (Put(f.time, LONG) + (Put(f.severity, SHORT) + (Frame(f.text) + Digest(a, f.body))));
    assert |Ascii("genesis")| == 7;
    assert GenesisInput(id) == domain + (GENESIS + names);
    assert ChainInput(previous, f, Digest(a, f.body)) == domain + (previous + step);
    Signing.Cut(domain, GENESIS + names, domain, previous + step);
    OneIsPrefix(GENESIS, names, previous, step);
  }

  /** Two inputs with the same digest, or one whose digest could stand at the beginning of a genesis input. */
  datatype Evidence = Collision(one: Bytes, other: Bytes) | Lookalike(input: Bytes)

  predicate Shown(a: Algorithm, e: Evidence) {
    match e
    case Collision(one, other) => Collide(a, one, other)
    case Lookalike(input) => LikeGenesis(Digest(a, input))
  }

  /** The input whose digest is the last chain value of a segment. */
  function LastInput(a: Algorithm, id: Identity, h: seq<Fields>): Bytes {
    if h == [] then GenesisInput(id)
    else
      var n := |h| - 1;
      ChainInput(ChainOf(a, Genesis(a, id), h[..n]), h[n], Digest(a, h[n].body))
  }

  lemma LastInputOf(a: Algorithm, id: Identity, h: seq<Fields>)
    ensures Digest(a, LastInput(a, id, h)) == ChainOf(a, Genesis(a, id), h)
  {
  }

  /** The evidence behind a segment that has reached the genesis value of a process. */
  function StartEvidence(a: Algorithm, id: Identity, u: Identity, l: seq<Fields>): Evidence
    requires l != []
  {
    if GenesisInput(id) != LastInput(a, u, l) then Collision(GenesisInput(id), LastInput(a, u, l))
    else Lookalike(LastInput(a, u, l[..|l| - 1]))
  }

  lemma StartShows(a: Algorithm, id: Identity, u: Identity, l: seq<Fields>)
    requires l != [] && Genesis(a, id) == ChainOf(a, Genesis(a, u), l)
    ensures var e := StartEvidence(a, id, u, l);
            Shown(a, e) && (ShortNames(id, a) ==> e.Collision?)
  {
    var n := |l| - 1;
    LastInputOf(a, u, l);
    LastInputOf(a, u, l[..n]);
    if GenesisInput(id) == LastInput(a, u, l) { GenesisIsNoStep(id, a, ChainOf(a, Genesis(a, u), l[..n]), l[n]); }
  }

  /** The evidence behind a segment and a longer one. */
  function LongerEvidence(a: Algorithm, id: Identity, h: seq<Fields>, u: Identity, l: seq<Fields>): Evidence
    requires |h| < |l|
  {
    var n := |l| - |h|;
    match FindCollision(a, Genesis(a, id), h, ChainOf(a, Genesis(a, u), l[..n]), l[n..])
    case Some((one, other)) => Collision(one, other)
    case None => StartEvidence(a, id, u, l[..n])
  }

  lemma LongerShows(a: Algorithm, id: Identity, h: seq<Fields>, u: Identity, l: seq<Fields>)
    requires |h| < |l| && AllFit(h) && AllFit(l)
    requires ChainOf(a, Genesis(a, id), h) == ChainOf(a, Genesis(a, u), l)
    ensures var e := LongerEvidence(a, id, h, u, l);
            Shown(a, e) && (ShortNames(id, a) ==> e.Collision?)
  {
    var n := |l| - |h|;
    var t := Genesis(a, u);
    ChainInTwo(a, t, l, n);
    TailFits(l, n);
    SameChainSameHistory(a, Genesis(a, id), h, ChainOf(a, t, l[..n]), l[n..]);
    if FindCollision(a, Genesis(a, id), h, ChainOf(a, t, l[..n]), l[n..]) == None { StartShows(a, id, u, l[..n]); }
  }

  /** A segment: the process that opened it, and its history up to some record. */
  datatype Opened = Opened(process: Identity, history: seq<Fields>)

  predicate Encodable(o: Opened) {
    Started(o.process) && AllFit(o.history)
  }

  /** One history, by one process or, if neither has names without zero bytes, by two whose names run together alike. */
  predicate SameSegment(o: Opened, u: Opened) {
    o.history == u.history && Alike(o.process, u.process)
  }

  /** The evidence behind two segments with one chain value; None if the segments are the same. */
  function SegmentEvidence(a: Algorithm, o: Opened, u: Opened): Option<Evidence> {
    if |o.history| < |u.history| then Some(LongerEvidence(a, o.process, o.history, u.process, u.history))
    else if |u.history| < |o.history| then Some(LongerEvidence(a, u.process, u.history, o.process, o.history))
    else
      match FindCollision(a, Genesis(a, o.process), o.history, Genesis(a, u.process), u.history)
      case Some((one, other)) => Some(Collision(one, other))
      case None =>
        if GenesisInput(o.process) != GenesisInput(u.process)
        then Some(Collision(GenesisInput(o.process), GenesisInput(u.process))) else None
  }

  /**
   * Two segments with one chain value are the same segment of the same process, or the hash function collides; or,
   * with long names only, it has a value that could stand at the beginning of a genesis input.
   */
  lemma SameChainSameSegment(a: Algorithm, o: Opened, u: Opened)
    requires Encodable(o) && Encodable(u)
    requires ChainOf(a, Genesis(a, o.process), o.history) == ChainOf(a, Genesis(a, u.process), u.history)
    ensures match SegmentEvidence(a, o, u)
            case None => SameSegment(o, u)
            case Some(e) => Shown(a, e) && (ShortNames(o.process, a) && ShortNames(u.process, a) ==> e.Collision?)
  {
    if |o.history| < |u.history| {
      LongerShows(a, o.process, o.history, u.process, u.history);
    } else if |u.history| < |o.history| {
      LongerShows(a, u.process, u.history, o.process, o.history);
    } else {
      SameChainSameHistory(a, Genesis(a, o.process), o.history, Genesis(a, u.process), u.history);
      if GenesisInput(o.process) == GenesisInput(u.process) { SameInputAlike(o.process, u.process); }
    }
  }

  /** Record k belongs to this segment: the stretch from the restart at j. */
  predicate InOpened(records: seq<Record>, j: nat, k: nat, o: Opened) {
    Stretch(records, j, k) && Restarts(records[j]) && AllStamped(records[j..k + 1])
    && o == Opened(records[j].identity, History(records[j..k + 1]))
  }

  /** The segment that holds record k, and what its chain value commits to. */
  lemma SegmentOf(env: Env, records: seq<Record>, v: Reader, k: nat) returns (j: nat, o: Opened)
    requires ReadAll(env, records) == Some(v) && k < |records| && Linked(records[k])
    ensures InOpened(records, j, k, o)
    ensures LinkOf(records[k]).chain
            == ChainOf(records[k].stamp.algorithm, Genesis(records[k].stamp.algorithm, o.process), o.history)
  {
    j := SegmentCommits(env, records, v, k);
    o := Opened(records[j].identity, History(records[j..k + 1]));
  }

  /**
   * A segment cannot be spliced into the log of another process: if two records of two accepted logs have one chain
   * value, then the segments up to them hold the same records and were opened by the same process, or evidence
   * against the hash function is computed from them.
   */
  lemma SameChainSameProcess(env: Env, p: seq<Record>, v: Reader, k: nat, q: seq<Record>, w: Reader, m: nat)
    returns (j: nat, o: Opened, i: nat, u: Opened)
    requires ReadAll(env, p) == Some(v) && k < |p| && Linked(p[k])
    requires ReadAll(env, q) == Some(w) && m < |q| && Linked(q[m])
    requires p[k].stamp.algorithm == q[m].stamp.algorithm && LinkOf(p[k]).chain == LinkOf(q[m]).chain
    ensures InOpened(p, j, k, o) && InOpened(q, i, m, u)
    ensures var a := p[k].stamp.algorithm;
            Encodable(o) && Encodable(u) ==>
              match SegmentEvidence(a, o, u)
              case None => SameSegment(o, u)
              case Some(e) => Shown(a, e) && (ShortNames(o.process, a) && ShortNames(u.process, a) ==> e.Collision?)
  {
    j, o := SegmentOf(env, p, v, k);
    i, u := SegmentOf(env, q, w, m);
    if Encodable(o) && Encodable(u) { SameChainSameSegment(p[k].stamp.algorithm, o, u); }
  }
}

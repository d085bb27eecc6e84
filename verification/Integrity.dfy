/** src/logging/integrity.go: the hash chain that one logging process keeps over its records. */
module Integrity {
  import opened Bytes
  import opened Options

  /** A hash algorithm: some function from bytes to `size` bytes. */
  datatype Algorithm = Algorithm(name: Bytes, size: nat, sum: Bytes -> nat)

  function Digest(a: Algorithm, input: Bytes): (d: Bytes)
    ensures |d| == a.size
  {
    BigEndian(a.sum(input), a.size)
  }

  function Ascii(s: string): (b: Bytes)
    ensures |b| == |s|
  {
    seq(|s|, i requires 0 <= i < |s| => (s[i] as int % 256) as byte)
  }

  const CHAIN_DOMAIN := Ascii("airgap-log-chain-v1")

  datatype Level = Trace | Debug | Info | Warn | Error | Fatal

  function SeverityNumber(level: Level): nat {
    match level
    case Trace => 1
    case Debug => 5
    case Info => 9
    case Warn => 13
    case Error => 17
    case Fatal => 21
  }

  function SeverityText(level: Level): Bytes {
    Ascii(match level
          case Trace => "TRACE"
          case Debug => "DEBUG"
          case Info => "INFO"
          case Warn => "WARN"
          case Error => "ERROR"
          case Fatal => "FATAL")
  }

  /** A conversion to an unsigned integer of `width` bytes, written big-endian. */
  function Put(n: int, width: nat): (b: Bytes)
    ensures |b| == width
  {
    BigEndian(n % Pow256(width), width)
  }

  const LONG: nat := 8
  const SHORT: nat := 4

  /** A value behind its four-byte length (writeFramedHashString, frameSigningValue). */
  function Frame(value: Bytes): (b: Bytes)
    ensures |b| == 4 + |value|
  {
    Put(|value|, SHORT) + value
  }

  /** What the chain commits to for one record. */
  datatype Fields = Fields(number: nat, time: int, severity: nat, text: Bytes, body: Bytes)

  function FieldsOf(seqNo: nat, time: int, level: Level, body: Bytes): Fields {
    Fields(seqNo, time, SeverityNumber(level), SeverityText(level), body)
  }

  /** The input of one chain step. */
  function ChainInput(previous: Bytes, f: Fields, payloadHash: Bytes): Bytes {
    CHAIN_DOMAIN + [0]
    + (previous + (Put(f.number, LONG) + (Put(f.time, LONG) + (Put(f.severity, SHORT) + (Frame(f.text) + payloadHash)))))
  }

  function Advance(a: Algorithm, previous: Bytes, f: Fields): (chain: Bytes)
    ensures |chain| == a.size
  {
    Digest(a, ChainInput(previous, f, Digest(a, f.body)))
  }

  datatype Identity = Identity(service: Bytes, instance: Bytes, startNano: int)

  function GenesisInput(id: Identity): Bytes {
    CHAIN_DOMAIN + [0] + Ascii("genesis") + [0]
    + (id.service + ([0] + (id.instance + ([0] + Put(id.startNano, LONG)))))
  }

  /** The start of a chain, bound to one process. */
  function Genesis(a: Algorithm, id: Identity): (chain: Bytes)
    ensures |chain| == a.size
  {
    Digest(a, GenesisInput(id))
  }

  /** A log signer: its certificate and the identities derived from it. */
  datatype Signer = Signer(signerID: Bytes, keyID: Bytes, certificate: Bytes, notBefore: int, notAfter: int)

  /** The chain attributes of a record. Segments and windows are named by the how-manieth random identity they drew. */
  datatype Link = Link(segment: nat, window: nat, prev: Bytes, chain: Bytes, restart: bool)

  datatype Stamp = Unstamped | Stamped(algorithm: Algorithm, hash: Bytes, number: nat, run: nat, link: Option<Link>)

  datatype State = State(
    identity: Identity,
    algorithm: Option<Algorithm>, // None: disabled
    chainLen: nat,
    number: nat,                  // of the next record
    chain: Bytes,
    sinceAnchor: nat,
    anchorFrom: nat,
    restartPending: bool,
    signer: Option<Signer>,
    run: nat,                     // 0 until drawn
    segment: nat,
    window: nat,
    drawn: nat)                   // identities drawn so far

  function Initial(identity: Identity): State {
    State(identity, None, 0, 0, [], 0, 0, false, None, 0, 0, 0, 0)
  }

  predicate Chaining(s: State) {
    s.algorithm.Some? && s.chainLen > 0
  }

  /** The identities of a new segment: a run identity if there is none yet, then those of segment and window. */
  function Renewed(s: State): State {
    var drawn := if s.run == 0 then s.drawn + 1 else s.drawn;
    s.(run := if s.run == 0 then drawn else s.run, segment := drawn + 1, window := drawn + 2, drawn := drawn + 2)
  }

  function Start(s: State): Bytes {
    if s.algorithm == None then [] else Genesis(s.algorithm.value, s.identity)
  }

  function Reset(s: State): State {
    Renewed(s).(sinceAnchor := 0, anchorFrom := s.number, restartPending := true, chain := Start(s))
  }

  /** The value of the hash setting. */
  datatype HashName = Off | Supported(algorithm: Algorithm) | Unsupported

  function ConfigureHash(s: State, name: HashName): State {
    match name
    case Off => s.(algorithm := None)
    case Supported(a) => Reset(s.(algorithm := Some(a)))
    case Unsupported => s
  }

  function ConfigureChainLength(s: State, length: int): State {
    if length < 0 then s else Reset(s.(chainLen := length))
  }

  function StampOf(s: State, time: int, level: Level, body: Bytes): Stamp {
    match s.algorithm
    case None => Unstamped
    case Some(a) =>
      Stamped(a, Digest(a, body), s.number, s.run,
              if s.chainLen == 0 then None
              else Some(Link(s.segment, s.window, s.chain, Advance(a, s.chain, FieldsOf(s.number, time, level, body)),
                             s.restartPending)))
  }

  function AfterStamp(s: State, time: int, level: Level, body: Bytes): State {
    match s.algorithm
    case None => s
    case Some(a) =>
      if s.chainLen == 0 then s.(number := s.number + 1)
      else s.(number := s.number + 1, sinceAnchor := s.sinceAnchor + 1, restartPending := false,
              chain := Advance(a, s.chain, FieldsOf(s.number, time, level, body)))
  }

  predicate AnchorDue(s: State) {
    Chaining(s) && s.sinceAnchor >= s.chainLen
  }

  function FinishAnchor(s: State): State {
    s.(sinceAnchor := 0, window := s.drawn + 1, drawn := s.drawn + 1)
  }

  /** integrityState. Equality of functions is not decidable, so the algorithm is compared in specifications only. */
  class IntegrityState {
    var identity: Identity
    var enabled: bool
    var algorithm: Option<Algorithm>
    var chainLen: nat
    var seqNo: nat
    var chain: Bytes
    var sinceAnchor: nat
    var anchorFrom: nat
    var restartPending: bool
    var signer: Option<Signer>
    var runID: nat
    var segmentID: nat
    var windowID: nat
    var drawn: nat

    ghost predicate Valid()
      reads this
    {
      enabled == algorithm.Some?
    }

    ghost function Value(): State
      reads this
    {
      State(identity, algorithm, chainLen, seqNo, chain, sinceAnchor, anchorFrom, restartPending, signer,
            runID, segmentID, windowID, drawn)
    }

    constructor (identity: Identity)
      ensures Valid() && Value() == Initial(identity)
    {
      this.identity := identity;
      enabled, algorithm, chainLen, seqNo, chain := false, None, 0, 0, [];
      sinceAnchor, anchorFrom, restartPending, signer := 0, 0, false, None;
      runID, segmentID, windowID, drawn := 0, 0, 0, 0;
    }

    method NewIntegrityID() returns (id: nat)
      modifies this`drawn
      ensures id == drawn == old(drawn) + 1
    {
      drawn := drawn + 1;
      id := drawn;
    }

    method RenewIDs()
      requires Valid()
      modifies this`runID, this`segmentID, this`windowID, this`drawn
      ensures Valid() && Value() == Renewed(old(Value()))
    {
      if runID == 0 { runID := NewIntegrityID(); }
      segmentID := NewIntegrityID();
      windowID := NewIntegrityID();
    }

    method ResetChain()
      requires Valid()
      modifies this
      ensures Valid() && Value() == Reset(old(Value()))
    {
      sinceAnchor := 0;
      anchorFrom := seqNo;
      restartPending := true;
      RenewIDs();
      if !enabled {
        chain := [];
        return;
      }
      chain := Genesis(algorithm.value, identity);
    }

    method ConfigureIntegrity(name: HashName) returns (ok: bool)
      requires Valid()
      modifies this
      ensures Valid() && Value() == ConfigureHash(old(Value()), name) && ok == !name.Unsupported?
    {
      if name.Off? {
        enabled := false;
        algorithm := None;
        return true;
      }
      if name.Unsupported? { return false; }
      enabled := true;
      algorithm := Some(name.algorithm);
      ResetChain();
      return true;
    }

    method SetChainLength(length: int) returns (ok: bool)
      requires Valid()
      modifies this
      ensures Valid() && Value() == ConfigureChainLength(old(Value()), length) && ok == (length >= 0)
    {
      if length < 0 { return false; }
      chainLen := length;
      ResetChain();
      return true;
    }

    method Stamp(time: int, level: Level, body: Bytes) returns (stamp: Stamp)
      requires Valid()
      modifies this
      ensures Valid() && Value() == AfterStamp(old(Value()), time, level, body)
      ensures stamp == StampOf(old(Value()), time, level, body)
    {
      if !enabled { return Unstamped; }
      var payloadHash := Digest(algorithm.value, body);
      var no := seqNo;
      seqNo := seqNo + 1;
      if chainLen == 0 { return Stamped(algorithm.value, payloadHash, no, runID, None); }
      var previous := chain;
      chain := Advance(algorithm.value, previous, FieldsOf(no, time, level, body));
      sinceAnchor := sinceAnchor + 1;
      var restart := restartPending;
      restartPending := false;
      return Stamped(algorithm.value, payloadHash, no, runID, Some(Link(segmentID, windowID, previous, chain, restart)));
    }

    method AnchorAttributes() returns (from: nat, to: nat)
      requires Valid()
      modifies this
      ensures Valid() && Value() == old(Value()).(anchorFrom := old(seqNo) + 1)
      ensures from == old(anchorFrom) && to == old(seqNo)
    {
      from := anchorFrom;
      to := seqNo;
      anchorFrom := to + 1;
    }

    method CloseWindow()
      requires Valid()
      modifies this
      ensures Valid() && Value() == FinishAnchor(old(Value()))
    {
      sinceAnchor := 0;
      windowID := NewIntegrityID();
    }
  }
}

/** src/logging/logging.go and the rotation of src/logging/signing.go: the records one process writes, in order. */
module LogWriter {
  import opened Bytes
  import opened Options
  import opened Integrity
  import Signing

  const ANCHOR_BODY := Ascii("airgap log chain anchor")

  /** What the program takes from its surroundings: random identities, signatures and the text of an announcement. */
  datatype Env = Env(
    identityText: nat -> Bytes,
    sign: (Signer, Bytes) -> Option<Bytes>,
    announce: (Signer, Signer) -> Bytes)

  /** The signature attributes of an anchor. */
  datatype Checkpoint = Unsigned | SignatureError | Signed(signer: Signer, signature: Bytes)

  datatype Anchor = Anchor(from: nat, to: nat, length: nat, checkpoint: Checkpoint)

  datatype Event = General | Rotation(from: Signer, to: Signer) | Closing(anchor: Anchor)

  datatype Record = Record(identity: Identity, time: int, level: Level, body: Bytes, event: Event, stamp: Stamp)

  datatype Log = Log(state: State, output: seq<Record>)

  /** writeRecord */
  function WriteRecord(l: Log, time: int, level: Level, body: Bytes, event: Event): Log {
    Log(AfterStamp(l.state, time, level, body),
        l.output + [Record(l.state.identity, time, level, body, event, StampOf(l.state, time, level, body))])
  }

  /** The statement an anchor is signed over, from its own attributes. */
  function StatementOf(env: Env, id: Identity, stamp: Stamp, signer: Signer, from: nat, to: nat): Signing.Statement
    requires stamp.Stamped? && stamp.link.Some?
  {
    var link := stamp.link.value;
    Signing.Statement(
      Ascii("v1"), stamp.algorithm.name, Ascii("Ed25519"), signer.signerID, signer.keyID,
      env.identityText(stamp.run), env.identityText(link.segment), env.identityText(link.window),
      id.service, id.instance, id.startNano, from, to, link.prev, link.chain)
  }

  function CheckpointHash(env: Env, id: Identity, stamp: Stamp, signer: Signer, from: nat, to: nat): Bytes
    requires stamp.Stamped? && stamp.link.Some?
  {
    Digest(stamp.algorithm, Signing.Encode(StatementOf(env, id, stamp, signer, from, to)))
  }

  /** signAnchor, with `clock` the time it reads. */
  function SignAnchor(env: Env, s: State, stamp: Stamp, from: nat, to: nat, clock: int): Checkpoint {
    match s.signer
    case None => Unsigned
    case Some(signer) =>
      if !stamp.Stamped? || stamp.link == None || clock < signer.notBefore || clock > signer.notAfter then SignatureError
      else
        match env.sign(signer, CheckpointHash(env, s.identity, stamp, signer, from, to))
        case None => SignatureError
        case Some(signature) => Signed(signer, signature)
  }

  /** writeAnchorLocked: the anchor closes the window with its own number. */
  function WriteAnchor(env: Env, l: Log, time: int, clock: int): Log {
    var s := l.state.(anchorFrom := l.state.number + 1);
    var stamp := StampOf(s, time, Info, ANCHOR_BODY);
    var checkpoint := SignAnchor(env, s, stamp, l.state.anchorFrom, l.state.number, clock);
    var anchor := Anchor(l.state.anchorFrom, l.state.number, s.chainLen, checkpoint);
    var written := WriteRecord(Log(s, l.output), time, Info, ANCHOR_BODY, Closing(anchor));
    written.(state := FinishAnchor(written.state))
  }

  /** The outcome writeAnchorLocked returns: whether the anchor could be signed as configured. */
  function AnchorError(env: Env, l: Log, time: int, clock: int): bool {
    var s := l.state.(anchorFrom := l.state.number + 1);
    SignAnchor(env, s, StampOf(s, time, Info, ANCHOR_BODY), l.state.anchorFrom, l.state.number, clock).SignatureError?
  }

  /** One message with the times at which it is written and its anchor, if any, is signed. */
  datatype Call = Call(time: int, clock: int, level: Level, body: Bytes)

  /** writeEventLocked */
  function WriteEvent(env: Env, l: Log, c: Call): Log {
    var l' := WriteRecord(l, c.time, c.level, c.body, General);
    if AnchorDue(l'.state) then WriteAnchor(env, l', c.time, c.clock) else l'
  }

  /** Several messages: the repeat summaries that a flush writes. */
  function WriteEvents(env: Env, l: Log, calls: seq<Call>): Log {
    if calls == [] then l else WriteEvent(env, WriteEvents(env, l, calls[..|calls| - 1]), calls[|calls| - 1])
  }

  /** What loadLogSigner returns. */
  datatype Candidate = LoadError | NoCertificate | Loaded(signer: Signer)

  datatype RotationResult =
    | LoadFailed | StillUnsigned | CannotDisable | Installed | Unchanged | NeedsChain | NotAuthenticated | Authenticated

  /** RotateSigningCertificate, with the repeat summaries it flushes. */
  function Rotate(env: Env, l: Log, candidate: Candidate, pending: seq<Call>, time: int, clock: int): (Log, RotationResult) {
    match candidate
    case LoadError => (l, LoadFailed)
    case NoCertificate => (l, if l.state.signer == None then StillUnsigned else CannotDisable)
    case Loaded(next) =>
      match l.state.signer
      case None => (l.(state := l.state.(signer := Some(next))), Installed)
      case Some(current) =>
        if current.certificate == next.certificate then (l, Unchanged)
        else if !Chaining(l.state) then (l, NeedsChain)
        else
          var flushed := WriteEvents(env, l, pending);
          var before := WriteRecord(flushed, time, Info, env.announce(current, next), Rotation(current, next));
          var after := WriteAnchor(env, before, time, clock);
          if AnchorError(env, before, time, clock) then (after, NotAuthenticated)
          else (after.(state := after.state.(signer := Some(next))), Authenticated)
  }

  /** The logger: the integrity state and the output it writes to. */
  class Logger {
    const env: Env
    const integrity: IntegrityState
    var output: seq<Record>

    ghost predicate Valid()
      reads this, integrity
    {
      integrity.Valid()
    }

    ghost function Value(): Log
      reads this, integrity
    {
      Log(integrity.Value(), output)
    }

    constructor (env: Env, identity: Identity)
      ensures this.env == env && fresh(integrity) && Valid() && Value() == Log(Initial(identity), [])
    {
      this.env := env;
      integrity := new IntegrityState(identity);
      output := [];
    }

    method WriteOne(time: int, level: Level, body: Bytes, event: Event)
      requires Valid()
      modifies this, integrity
      ensures Valid() && Value() == WriteRecord(old(Value()), time, level, body, event)
    {
      var stamp := integrity.Stamp(time, level, body);
      output := output + [Record(integrity.identity, time, level, body, event, stamp)];
    }

    method SignOne(stamp: Stamp, from: nat, to: nat, clock: int) returns (checkpoint: Checkpoint)
      requires Valid()
      ensures checkpoint == SignAnchor(env, integrity.Value(), stamp, from, to, clock)
    {
      if integrity.signer == None { return Unsigned; }
      var signer := integrity.signer.value;
      if !stamp.Stamped? || stamp.link == None { return SignatureError; }
      if clock < signer.notBefore || clock > signer.notAfter { return SignatureError; }
      var statement := Signing.BuildCheckpointStatement(StatementOf(env, integrity.identity, stamp, signer, from, to));
      var signature := env.sign(signer, Digest(stamp.algorithm, statement));
      if signature == None { return SignatureError; }
      return Signed(signer, signature.value);
    }

    method WriteOneAnchor(time: int, clock: int) returns (ok: bool)
      requires Valid()
      modifies this, integrity
      ensures Valid() && Value() == WriteAnchor(env, old(Value()), time, clock)
      ensures ok == !AnchorError(env, old(Value()), time, clock)
    {
      var from, to := integrity.AnchorAttributes();
      ghost var s := integrity.Value();
      var length := integrity.chainLen;
      var stamp := integrity.Stamp(time, Info, ANCHOR_BODY);
      var checkpoint := SignOne(stamp, from, to, clock);
      SignIgnoresStamp(env, s, stamp, from, to, clock, time);
      output := output + [Record(integrity.identity, time, Info, ANCHOR_BODY, Closing(Anchor(from, to, length, checkpoint)), stamp)];
      integrity.CloseWindow();
      ok := !checkpoint.SignatureError?;
    }

    method Write(c: Call)
      requires Valid()
      modifies this, integrity
      ensures Valid() && Value() == WriteEvent(env, old(Value()), c)
    {
      WriteOne(c.time, c.level, c.body, General);
      if integrity.enabled && integrity.chainLen > 0 && integrity.sinceAnchor >= integrity.chainLen {
        var ok := WriteOneAnchor(c.time, c.clock);
      }
    }

    /** The loop over pending repeat summaries. */
    method WriteAll(calls: seq<Call>)
      requires Valid()
      modifies this, integrity
      ensures Valid() && Value() == WriteEvents(env, old(Value()), calls)
    {
      for i := 0 to |calls|
        invariant Valid() && Value() == WriteEvents(env, old(Value()), calls[..i])
      {
        assert calls[..i + 1][..i] == calls[..i];
        Write(calls[i]);
      }
      assert calls[..|calls|] == calls;
    }

    method RotateSigningCertificate(candidate: Candidate, pending: seq<Call>, time: int, clock: int)
      returns (r: RotationResult)
      requires Valid()
      modifies this, integrity
      ensures Valid() && (Value(), r) == Rotate(env, old(Value()), candidate, pending, time, clock)
    {
      if candidate.LoadError? { return LoadFailed; }
      if candidate.NoCertificate? {
        if integrity.signer == None { return StillUnsigned; }
        return CannotDisable;
      }
      var current := integrity.signer;
      if current == None {
        integrity.signer := Some(candidate.signer);
        return Installed;
      }
      if current.value.certificate == candidate.signer.certificate { return Unchanged; }
      if !(integrity.enabled && integrity.chainLen > 0) { return NeedsChain; }
      WriteAll(pending);
      WriteOne(time, Info, env.announce(current.value, candidate.signer), Rotation(current.value, candidate.signer));
      var ok := WriteOneAnchor(time, clock);
      if !ok { return NotAuthenticated; }
      integrity.signer := Some(candidate.signer);
      return Authenticated;
    }
  }

  /** Stamping changes neither signer nor identity, so it does not matter to the signature. */
  lemma SignIgnoresStamp(env: Env, s: State, stamp: Stamp, from: nat, to: nat, clock: int, time: int)
    ensures SignAnchor(env, AfterStamp(s, time, Info, ANCHOR_BODY), stamp, from, to, clock)
            == SignAnchor(env, s, stamp, from, to, clock)
  {
  }
}

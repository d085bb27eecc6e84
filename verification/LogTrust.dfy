/** Who may sign: every signer after the first is announced inside an anchor that its predecessor signed. */
module LogTrust {
  import opened Bytes
  import opened Options
  import opened Integrity
  import opened LogWriter
  import opened LogVerifier
  import opened LogWindows
  import opened Tampering

  predicate SignedAnchor(r: Record) {
    r.event.Closing? && r.event.anchor.checkpoint.Signed?
  }

  function SignerOf(r: Record): Signer
    requires SignedAnchor(r)
  {
    r.event.anchor.checkpoint.signer
  }

  /** The hashed body of record j names `to` as the successor of the signer of anchor i, within that anchor's range. */
  predicate AnnouncedIn(env: Env, records: seq<Record>, j: nat, i: nat, to: Signer)
    requires j < i < |records|
  {
    SignedAnchor(records[i]) && records[j].stamp.Stamped?
    && records[j].event == Rotation(SignerOf(records[i]), to) && records[j].body == env.announce(SignerOf(records[i]), to)
    && records[i].event.anchor.from <= records[j].stamp.number <= records[i].event.anchor.to
  }

  /** Before place n, signer x is the first signer of the log or was announced by an authorised predecessor. */
  ghost predicate Authorised(env: Env, records: seq<Record>, n: nat, root: Signer, x: Signer)
    requires n <= |records|
  {
    x == root
    || exists j: nat, i: nat :: j < i < n && AnnouncedIn(env, records, j, i, x) && Authorised(env, records, i, root, SignerOf(records[i]))
  }

  /** The signer of the first signed anchor, if there is one. */
  function Root(records: seq<Record>): Option<Signer> {
    if records == [] then None
    else
      var r := records[|records| - 1];
      match Root(records[..|records| - 1])
      case Some(x) => Some(x)
      case None => if SignedAnchor(r) then Some(SignerOf(r)) else None
  }

  lemma {:induction false} AnnouncementIsWritten(env: Env, records: seq<Record>, v: Reader) returns (j: nat)
    requires ReadChain(env, records) == Some(v) && v.announced.Some?
    ensures j < |records| && records[j].stamp.Stamped? && records[j].stamp.number == v.announced.value.number
    ensures records[j].event == Rotation(v.announced.value.from, v.announced.value.to)
    ensures records[j].body == env.announce(v.announced.value.from, v.announced.value.to)
  {
    var before := ReadLast(env, records, v);
    if records[|records| - 1].event.Rotation? {
      j := |records| - 1;
    } else {
      j := AnnouncementIsWritten(env, records[..|records| - 1], before);
    }
  }

  lemma {:induction false} AuthorisedInMore(env: Env, records: seq<Record>, r: Record, n: nat, root: Signer, x: Signer)
    requires n <= |records| && Authorised(env, records, n, root, x)
    ensures Authorised(env, records + [r], n, root, x)
    decreases n
  {
    if x != root {
      var j: nat, i: nat :| j < i < n && AnnouncedIn(env, records, j, i, x) && Authorised(env, records, i, root, SignerOf(records[i]));
      AuthorisedInMore(env, records, r, i, root, SignerOf(records[i]));
      assert AnnouncedIn(env, records + [r], j, i, x);
    }
  }

  lemma AuthorisedLater(env: Env, records: seq<Record>, n: nat, m: nat, root: Signer, x: Signer)
    requires n <= m <= |records| && Authorised(env, records, n, root, x)
    ensures Authorised(env, records, m, root, x)
  {
  }

  /** What a record does to trust. */
  lemma TrustMoves(env: Env, v: Reader, r: Record)
    requires Chains(env, v, r)
    ensures var v' := Read(env, v, r);
            if SignedAnchor(r) then
              (v.trust == Unpinned || v.trust == Pinned(SignerOf(r)))
              && (v'.trust == Pinned(SignerOf(r))
                  || (v.announced.Some? && v.announced.value.from == SignerOf(r) && v'.trust == Pinned(v.announced.value.to)
                      && r.event.anchor.from <= v.announced.value.number <= r.event.anchor.to))
            else v'.trust == v.trust
  {
  }

  /** The reader trusts nobody before the first signed anchor, and then only authorised signers. */
  lemma {:induction false} TrustIsAuthorised(env: Env, records: seq<Record>, v: Reader)
    requires ReadChain(env, records) == Some(v)
    ensures v.trust == Unpinned <==> Root(records) == None
    ensures v.trust.Pinned? ==> Authorised(env, records, |records|, Root(records).value, v.trust.signer)
  {
    if records != [] {
      var n, r := |records| - 1, records[|records| - 1];
      var prefix := records[..n];
      var before := ReadLast(env, records, v);
      TrustIsAuthorised(env, prefix, before);
      TrustMoves(env, before, r);
      assert prefix + [r] == records;
      if before.trust.Pinned? {
        AuthorisedInMore(env, prefix, r, n, Root(prefix).value, before.trust.signer);
        AuthorisedLater(env, records, n, n + 1, Root(prefix).value, before.trust.signer);
      }
      if SignedAnchor(r) && v.trust != Pinned(SignerOf(r)) {
        var j := AnnouncementIsWritten(env, prefix, before);
        assert AnnouncedIn(env, records, j, n, v.trust.signer) && Authorised(env, records, n, Root(records).value, SignerOf(r));
      }
    }
  }

  /** The trust chain: whoever signs an anchor of an accepted log was authorised before it. */
  lemma SignersAreAuthorised(env: Env, records: seq<Record>, v: Reader, k: nat)
    requires ReadChain(env, records) == Some(v) && k < |records| && SignedAnchor(records[k])
    ensures Root(records[..k]) == None || Authorised(env, records[..k], k, Root(records[..k]).value, SignerOf(records[k]))
  {
    var before := Before(env, records, v, k);
    TrustIsAuthorised(env, records[..k], before);
    TrustMoves(env, before, records[k]);
  }

  /** In every run, the signer of the process is authorised by its own log, once anything has been signed. */
  lemma SignerOfRunIsAuthorised(env: Env, identity: Identity, ops: seq<Op>)
    ensures var l := Run(env, identity, ops);
            Root(l.output).Some? ==>
              l.state.signer.Some? && Authorised(env, l.output, |l.output|, Root(l.output).value, l.state.signer.value)
  {
    var v := EveryRunChains(env, identity, ops);
    TrustIsAuthorised(env, Run(env, identity, ops).output, v);
  }

  // What the old signature says about the successor

  /**
   * The event tag is not hashed, so a record can be relabelled: the verifier takes a general record for an
   * announcement exactly when its hashed body is the text of that announcement.
   */
  lemma RelabelledIff(env: Env, v: Reader, r: Record, from: Signer, to: Signer)
    requires Chains(env, v, r) && Linked(r) && r.event.General?
    ensures Chains(env, v, r.(event := Rotation(from, to))) <==> r.body == env.announce(from, to)
  {
  }

  lemma {:induction false} HistoryAt(records: seq<Record>, i: nat)
    requires AllStamped(records) && i < |records|
    ensures records[i].stamp.Stamped? && History(records)[i] == Committed(records[i])
  {
    if i < |records| - 1 { HistoryAt(records[..|records| - 1], i); }
  }

  /** Two logs that chain, with anchors of one checkpoint hash, and windows within the encoded widths. */
  ghost predicate OneCheckpoint(env: Env, p: seq<Record>, v: Reader, k: nat, x: Signer,
                                q: seq<Record>, w: Reader, m: nat, y: Signer) {
    && ReadChain(env, p) == Some(v) && k < |p| && p[k].event.Closing? && Linked(p[k])
    && ReadChain(env, q) == Some(w) && m < |q| && q[m].event.Closing? && Linked(q[m])
    && p[k].stamp.algorithm == q[m].stamp.algorithm
    && Signing.InRange(AnchorStatement(env, p[k], x)) && Signing.InRange(AnchorStatement(env, q[m], y))
    && Digest(p[k].stamp.algorithm, Signing.Encode(AnchorStatement(env, p[k], x)))
       == Digest(q[m].stamp.algorithm, Signing.Encode(AnchorStatement(env, q[m], y)))
    && WindowFits(p, k) && WindowFits(q, m)
  }

  /** The two colliding inputs, if the windows with their starts s and t differ. */
  function Clash(env: Env, p: seq<Record>, k: nat, x: Signer, s: Bytes, q: seq<Record>, m: nat, y: Signer, t: Bytes)
    : Option<(Bytes, Bytes)>
    requires k < |p| && p[k].event.Closing? && Linked(p[k]) && WindowFits(p, k) && |s| == p[k].stamp.algorithm.size
    requires m < |q| && q[m].event.Closing? && Linked(q[m]) && WindowFits(q, m) && |t| == |s|
  {
    WindowCollision(p[k].stamp.algorithm, AnchorStatement(env, p[k], x), s, History(Window(p, k)),
                    AnchorStatement(env, q[m], y), t, History(Window(q, m)))
  }

  /** The windows agree, record by record, in their hashed bodies, or two colliding inputs are computed. */
  lemma SameBodies(env: Env, p: seq<Record>, v: Reader, k: nat, x: Signer,
                   q: seq<Record>, w: Reader, m: nat, y: Signer, d: nat) returns (s: Bytes, t: Bytes)
    requires OneCheckpoint(env, p, v, k, x, q, w, m, y) && d < |Window(q, m)|
    ensures |s| == |t| == p[k].stamp.algorithm.size && StartsFrom(p, k, s) && StartsFrom(q, m, t)
    ensures match Clash(env, p, k, x, s, q, m, y, t)
            case None => d < |Window(p, k)| == |Window(q, m)| && Window(p, k)[d].body == Window(q, m)[d].body
            case Some((one, other)) => Collide(p[k].stamp.algorithm, one, other)
  {
    s, t := SameCheckpointSameWindow(env, p, v, k, x, q, w, m, y);
    if Clash(env, p, k, x, s, q, m, y, t) == None {
      HistoryAt(Window(p, k), d);
      HistoryAt(Window(q, m), d);
    }
  }

  /** The texts of two announcements differ if their successors do. */
  predicate TellApart(env: Env, e: Event, f: Event)
    requires e.Rotation? && f.Rotation?
  {
    env.announce(e.from, e.to) == env.announce(f.from, f.to) ==> e.to == f.to
  }

  lemma AnnouncementBody(env: Env, p: seq<Record>, v: Reader, k: nat, d: nat)
    requires ReadChain(env, p) == Some(v) && k < |p| && p[k].event.Closing? && 0 <= WindowPlace(p, k) <= k
    requires d < |Window(p, k)| && Window(p, k)[d].event.Rotation?
    ensures Window(p, k)[d].body == env.announce(Window(p, k)[d].event.from, Window(p, k)[d].event.to)
  {
    var before := Before(env, p, v, WindowPlace(p, k) + d);
  }

  /** Announcements at one place of two windows with one checkpoint hash name the same successor, or the hash collides. */
  lemma SamePlaceSameSuccessor(env: Env, p: seq<Record>, v: Reader, k: nat, x: Signer,
                               q: seq<Record>, w: Reader, m: nat, y: Signer, d: nat) returns (s: Bytes, t: Bytes)
    requires OneCheckpoint(env, p, v, k, x, q, w, m, y) && d < |Window(p, k)| && d < |Window(q, m)|
    requires Window(p, k)[d].event.Rotation? && Window(q, m)[d].event.Rotation?
    requires TellApart(env, Window(p, k)[d].event, Window(q, m)[d].event)
    ensures |s| == |t| == p[k].stamp.algorithm.size && StartsFrom(p, k, s) && StartsFrom(q, m, t)
    ensures match Clash(env, p, k, x, s, q, m, y, t)
            case None => Window(p, k)[d].event.to == Window(q, m)[d].event.to
            case Some((one, other)) => Collide(p[k].stamp.algorithm, one, other)
  {
    s, t := SameBodies(env, p, v, k, x, q, w, m, y, d);
    AnnouncementBody(env, p, v, k, d);
    AnnouncementBody(env, q, w, m, d);
  }

  /** The signed anchor at m makes its reader trust a successor. */
  ghost predicate HandsOver(env: Env, q: seq<Record>, m: nat, to: Signer) {
    m < |q| && SignedAnchor(q[m]) && to != SignerOf(q[m])
    && ReadChain(env, q[..m + 1]).Some? && ReadChain(env, q[..m + 1]).value.trust == Pinned(to)
  }

  /** A record of the log is the one the anchor's range gives its number to. */
  lemma PlaceInWindow(env: Env, q: seq<Record>, w: Reader, m: nat, j: nat)
    requires ReadChain(env, q) == Some(w) && j < m < |q| && q[m].event.Closing? && q[j].stamp.Stamped?
    requires q[m].event.anchor.from <= q[j].stamp.number <= q[m].event.anchor.to
    ensures 0 <= WindowPlace(q, m) <= j && q[j].stamp.number == q[m].event.anchor.from + (j - WindowPlace(q, m))
  {
    AnchorsTile(env, q, w, m);
    var first := WindowPlace(q, m);
    var i := first + (q[j].stamp.number - q[m].event.anchor.from);
    assert Covered(q, first, m, i);
    if i < j { NumbersGrow(env, q, w, i, j); }
    if j < i { NumbersGrow(env, q, w, j, i); }
  }

  lemma AnnouncedInWindow(env: Env, q: seq<Record>, w: Reader, m: nat, to: Signer) returns (j: nat)
    requires ReadChain(env, q) == Some(w) && HandsOver(env, q, m, to)
    ensures 0 <= WindowPlace(q, m) <= j < m && AnnouncedIn(env, q, j, m, to)
  {
    var before := Before(env, q, w, m);
    TrustMoves(env, before, q[m]);
    j := AnnouncementIsWritten(env, q[..m], before);
    PlaceInWindow(env, q, w, m, j);
  }

  /**
   * The old signature authenticates the successor. Let the anchor of a log have the checkpoint hash of another
   * log's anchor, and make its reader trust a successor: then that other window holds the text that names this
   * successor as a hashed body, whatever the event tags say, or two colliding inputs are computed.
   */
  lemma SuccessorIsSigned(env: Env, p: seq<Record>, v: Reader, k: nat, x: Signer,
                          q: seq<Record>, w: Reader, m: nat, to: Signer) returns (j: nat, s: Bytes, t: Bytes)
    requires HandsOver(env, q, m, to) && OneCheckpoint(env, p, v, k, x, q, w, m, SignerOf(q[m]))
    ensures |s| == |t| == p[k].stamp.algorithm.size && StartsFrom(p, k, s) && StartsFrom(q, m, t)
    ensures match Clash(env, p, k, x, s, q, m, SignerOf(q[m]), t)
            case None => j < |Window(p, k)| && Window(p, k)[j].body == env.announce(SignerOf(q[m]), to)
            case Some((one, other)) => Collide(p[k].stamp.algorithm, one, other)
  {
    var i := AnnouncedInWindow(env, q, w, m, to);
    j := i - WindowPlace(q, m);
    s, t := SameBodies(env, p, v, k, x, q, w, m, SignerOf(q[m]), j);
  }

  // The rotations of a run

  /** A rotation changes the signer only when it installs a first signer or is authenticated. */
  lemma RotationFailsClosed(env: Env, l: Log, candidate: Candidate, pending: seq<Call>, time: int, clock: int)
    ensures var (l', r) := Rotate(env, l, candidate, pending, time, clock);
            if r.Installed? || r.Authenticated? then candidate.Loaded? && l'.state.signer == Some(candidate.signer)
            else l'.state.signer == l.state.signer
  {
    WriteEventsKeep(env, l, pending);
  }

  /** An authenticated rotation ends the log with the announcement and an anchor over it, signed by the old signer. */
  lemma RotationIsAnnounced(env: Env, l: Log, v: Reader, candidate: Candidate, pending: seq<Call>, time: int, clock: int)
    requires Settled(env, l, v) && Rotate(env, l, candidate, pending, time, clock).1.Authenticated?
    ensures var out := Rotate(env, l, candidate, pending, time, clock).0.output;
            |out| >= 2 && l.state.signer.Some? && candidate.Loaded? && SignedAnchor(out[|out| - 1])
            && SignerOf(out[|out| - 1]) == l.state.signer.value
            && AnnouncedIn(env, out, |out| - 2, |out| - 1, candidate.signer)
  {
    var current, next := l.state.signer.value, candidate.signer;
    var v' := WriteEventsRead(env, l, v, pending);
    WriteEventsKeep(env, l, pending);
    var flushed := WriteEvents(env, l, pending);
    var before := WriteRecord(flushed, time, Info, env.announce(current, next), Rotation(current, next));
    WriteAnchorIsRecord(env, before, time, clock);
  }

  /** An anchor that a full window brings about covers the configured number of records and itself. */
  lemma AutomaticAnchorIsFull(env: Env, l: Log, v: Reader, c: Call)
    requires Settled(env, l, v) && AnchorDue(WriteRecord(l, c.time, c.level, c.body, General).state)
    ensures var out := WriteEvent(env, l, c).output;
            out != [] && out[|out| - 1].event.Closing?
            && out[|out| - 1].event.anchor.to - out[|out| - 1].event.anchor.from == l.state.chainLen
  {
    WriteAnchorIsRecord(env, WriteRecord(l, c.time, c.level, c.body, General), c.time, c.clock);
  }

  /** The first chained record of a segment is marked as a restart, and no other record is. */
  lemma RestartMarksFirst(env: Env, records: seq<Record>, v: Reader, k: nat)
    requires ReadChain(env, records) == Some(v) && k < |records| && Linked(records[k])
    ensures LinkOf(records[k]).restart
            <==> forall i :: 0 <= i < k && Linked(records[i]) ==> LinkOf(records[i]).segment != LinkOf(records[k]).segment
  {
    var before := Before(env, records, v, k);
    if LinkOf(records[k]).restart {
      forall i | 0 <= i < k && Linked(records[i]) ensures LinkOf(records[i]).segment != LinkOf(records[k]).segment {
        NumbersAreBelowNext(env, records[..k], before, i);
      }
    } else {
      var earlier := ReadLast(env, records[..k], before);
      SegmentAfter(env, earlier, records[..k][k - 1]);
      assert LinkOf(records[k - 1]).segment == LinkOf(records[k]).segment;
    }
  }
}

/** What a log that chains guarantees: unique numbers, anchors that tile it, a chain of signers, and tamper evidence. */
module LogWindows {
  import opened Bytes
  import opened Options
  import opened Integrity
  import opened LogWriter
  import opened LogVerifier
  import opened Tampering

  predicate Linked(r: Record) {
    r.stamp.Stamped? && r.stamp.link.Some?
  }

  function LinkOf(r: Record): Link
    requires Linked(r)
  {
    r.stamp.link.value
  }

  lemma ReadLast(env: Env, records: seq<Record>, v: Reader) returns (before: Reader)
    requires ReadChain(env, records) == Some(v) && records != []
    ensures ReadChain(env, records[..|records| - 1]) == Some(before)
    ensures Chains(env, before, records[|records| - 1]) && v == Read(env, before, records[|records| - 1])
  {
    before := ReadChain(env, records[..|records| - 1]).value;
  }

  /** Numbers are below the next one, and segments no newer than the newest. */
  lemma {:induction false} NumbersAreBelowNext(env: Env, records: seq<Record>, v: Reader, i: nat)
    requires ReadChain(env, records) == Some(v) && i < |records| && records[i].stamp.Stamped?
    ensures records[i].stamp.number < v.next
    ensures Linked(records[i]) ==> LinkOf(records[i]).segment <= v.newest
  {
    var before := ReadLast(env, records, v);
    if i < |records| - 1 {
      NumbersAreBelowNext(env, records[..|records| - 1], before, i);
    }
  }

  /** Sequence numbers are never reused: they grow along the log. */
  lemma {:induction false} NumbersGrow(env: Env, records: seq<Record>, v: Reader, i: nat, k: nat)
    requires ReadChain(env, records) == Some(v) && i < k < |records|
    requires records[i].stamp.Stamped? && records[k].stamp.Stamped?
    ensures records[i].stamp.number < records[k].stamp.number
  {
    var before := ReadLast(env, records, v);
    var prefix := records[..|records| - 1];
    if k < |records| - 1 {
      NumbersGrow(env, prefix, before, i, k);
    } else {
      NumbersAreBelowNext(env, prefix, before, i);
    }
  }

  /** What the chain commits to in a record. */
  function Committed(r: Record): Fields
    requires r.stamp.Stamped?
  {
    FieldsOf(r.stamp.number, r.time, r.level, r.body)
  }

  predicate AllStamped(records: seq<Record>) {
    records == [] || (AllStamped(records[..|records| - 1]) && records[|records| - 1].stamp.Stamped?)
  }

  function History(records: seq<Record>): (h: seq<Fields>)
    requires AllStamped(records)
    ensures |h| == |records|
  {
    if records == [] then [] else History(records[..|records| - 1]) + [Committed(records[|records| - 1])]
  }

  /** A record of the window that starts with number `from` at place j. */
  ghost predicate Member(r: Record, g: Segment, number: nat, first: bool) {
    Linked(r) && r.stamp.algorithm == g.algorithm && r.stamp.number == number && LinkOf(r).segment == g.id
    && !r.event.Closing? && (LinkOf(r).restart ==> first)
  }

  /** A window starts with a restart, or right behind the anchor of the window before. */
  predicate Begins(records: seq<Record>, j: nat, from: nat)
    requires j <= |records|
  {
    (j < |records| && Linked(records[j]) && LinkOf(records[j]).restart)
    || (j > 0 && records[j - 1].stamp.Stamped? && records[j - 1].event.Closing? && records[j - 1].stamp.number + 1 == from)
  }

  /** The open window of the reader is the end of the log from place j. */
  ghost predicate Opens(records: seq<Record>, g: Segment, next: nat, j: nat) {
    && j <= |records| && next == g.from + (|records| - j)
    && Begins(records, j, g.from)
    && forall i :: j <= i < |records| ==> Member(records[i], g, g.from + (i - j), i == j)
  }

  /** How the last record leaves the open window. */
  lemma SegmentAfter(env: Env, before: Reader, r: Record)
    requires Chains(env, before, r) && Read(env, before, r).segment.Some?
    ensures Linked(r)
    ensures var v := Read(env, before, r);
            var g := v.segment.value;
            if r.event.Closing? then g.from == v.next == r.stamp.number + 1
            else Member(r, g, before.next, LinkOf(r).restart) && v.next == before.next + 1
                 && if LinkOf(r).restart then g.from == before.next
                    else before.segment.Some? && before.segment.value.from == g.from
                         && before.segment.value.algorithm == g.algorithm && before.segment.value.id == g.id
  {
  }

  lemma OpensAtLast(records: seq<Record>, g: Segment, next: nat)
    requires records != [] && Member(records[|records| - 1], g, g.from, true) && next == g.from + 1
    requires LinkOf(records[|records| - 1]).restart
    ensures Opens(records, g, next, |records| - 1)
  {
  }

  lemma {:induction false} OpenWindow(env: Env, records: seq<Record>, v: Reader) returns (j: nat)
    requires ReadChain(env, records) == Some(v) && v.segment.Some?
    ensures Opens(records, v.segment.value, v.next, j)
  {
    var before := ReadLast(env, records, v);
    var n := |records| - 1;
    SegmentAfter(env, before, records[n]);
    if records[n].event.Closing? {
      j := n + 1;
    } else if LinkOf(records[n]).restart {
      OpensAtLast(records, v.segment.value, v.next);
      j := n;
    } else {
      j := OpenWindow(env, records[..n], before);
      OpensOn(records, before.segment.value, v.segment.value, before.next, j);
    }
  }

  lemma OpensOn(records: seq<Record>, g: Segment, g': Segment, next: nat, j: nat)
    requires records != [] && Opens(records[..|records| - 1], g, next, j)
    requires g'.algorithm == g.algorithm && g'.from == g.from && g'.id == g.id
    requires Member(records[|records| - 1], g', next, false)
    ensures Opens(records, g', next + 1, j)
  {
    var prefix := records[..|records| - 1];
    forall i | j <= i < |records| ensures Member(records[i], g', g'.from + (i - j), i == j) {
      if i < |prefix| { assert Member(prefix[i], g, g.from + (i - j), i == j); }
    }
  }

  lemma {:induction false} PrefixChains(env: Env, records: seq<Record>, v: Reader, k: nat) returns (v': Reader)
    requires ReadChain(env, records) == Some(v) && k <= |records|
    ensures ReadChain(env, records[..k]) == Some(v')
  {
    if k == |records| {
      assert records[..k] == records;
      v' := v;
    } else {
      var before := ReadLast(env, records, v);
      v' := PrefixChains(env, records[..|records| - 1], before, k);
      assert records[..|records| - 1][..k] == records[..k];
    }
  }

  /** The place in the log where the window of the anchor at k starts. */
  function WindowPlace(records: seq<Record>, k: nat): int
    requires k < |records| && records[k].event.Closing?
  {
    k - (records[k].event.anchor.to - records[k].event.anchor.from)
  }

  /** A record between the start of an anchor's window and the anchor. */
  ghost predicate Covered(records: seq<Record>, j: nat, k: nat, i: nat)
    requires i < |records| && j <= i <= k < |records| && records[k].event.Closing?
  {
    && Linked(records[i]) && Linked(records[k])
    && records[i].stamp.algorithm == records[k].stamp.algorithm
    && LinkOf(records[i]).segment == LinkOf(records[k]).segment
    && records[i].stamp.number == records[k].event.anchor.from + (i - j)
    && (records[i].event.Closing? ==> i == k) && (LinkOf(records[i]).restart ==> i == j)
  }

  /** The reader before record k, which it chains on to. */
  lemma Before(env: Env, records: seq<Record>, v: Reader, k: nat) returns (before: Reader)
    requires ReadChain(env, records) == Some(v) && k < |records|
    ensures ReadChain(env, records[..k]) == Some(before) && Chains(env, before, records[k])
    ensures ReadChain(env, records[..k + 1]) == Some(Read(env, before, records[k]))
  {
    var v1 := PrefixChains(env, records, v, k + 1);
    before := ReadLast(env, records[..k + 1], v1);
    assert records[..k + 1][..k] == records[..k];
  }

  /**
   * Anchors tile the log: an anchor covers exactly the records of its segment with the numbers of its range, up
   * to itself; that range starts at a declared restart or right behind the anchor before, is no longer than
   * configured, and holds no other anchor and no other restart.
   */
  lemma AnchorsTile(env: Env, records: seq<Record>, v: Reader, k: nat)
    requires ReadChain(env, records) == Some(v) && k < |records| && records[k].event.Closing?
    ensures var a := records[k].event.anchor;
            var j := WindowPlace(records, k);
            0 <= j <= k && Begins(records, j, a.from) && a.to <= a.from + a.length
            && forall i :: j <= i <= k ==> Covered(records, j, k, i)
  {
    var before := BeforeAnchor(env, records, v, k);
    if LinkOf(records[k]).restart {
      assert WindowPlace(records, k) == k && Covered(records, k, k, k);
    } else {
      var j := OpenWindow(env, records[..k], before);
      WindowIsCovered(records, k, before.segment.value, before.next, j);
    }
  }

  lemma BeforeAnchor(env: Env, records: seq<Record>, v: Reader, k: nat) returns (before: Reader)
    requires ReadChain(env, records) == Some(v) && k < |records| && records[k].event.Closing?
    ensures ReadChain(env, records[..k]) == Some(before) && Linked(records[k])
    ensures var r, a := records[k], records[k].event.anchor;
            a.to == r.stamp.number == before.next && a.from <= a.to <= a.from + a.length
            && if LinkOf(r).restart then a.from == a.to
               else before.segment.Some? && InSegment(before.segment.value, r.stamp.algorithm, LinkOf(r))
                    && a.from == before.segment.value.from
  {
    before := Before(env, records, v, k);
  }

  lemma WindowIsCovered(records: seq<Record>, k: nat, g: Segment, next: nat, j: nat)
    requires k < |records| && records[k].event.Closing? && Linked(records[k]) && !LinkOf(records[k]).restart
    requires Opens(records[..k], g, next, j)
    requires records[k].stamp.number == next && records[k].stamp.algorithm == g.algorithm && LinkOf(records[k]).segment == g.id
    requires records[k].event.anchor.from == g.from && records[k].event.anchor.to == next
    ensures j == WindowPlace(records, k) && Begins(records, j, g.from)
    ensures forall i :: j <= i <= k ==> Covered(records, j, k, i)
  {
    forall i | j <= i <= k ensures Covered(records, j, k, i) {
      if i < k { assert Member(records[..k][i], g, g.from + (i - j), i == j); }
    }
  }

  /** A record that continues a segment carries the algorithm and the chain value of the record before it. */
  lemma LinksMeet(env: Env, records: seq<Record>, v: Reader, k: nat)
    requires ReadChain(env, records) == Some(v) && 0 < k < |records|
    requires Linked(records[k]) && !LinkOf(records[k]).restart && Linked(records[k - 1])
    ensures LinkOf(records[k]).prev == LinkOf(records[k - 1]).chain
    ensures records[k].stamp.algorithm == records[k - 1].stamp.algorithm
  {
    var before := Before(env, records, v, k);
    var earlier := ReadLast(env, records[..k], before);
    assert records[..k][k - 1] == records[k - 1];
  }

  lemma LinkAdvances(env: Env, records: seq<Record>, v: Reader, k: nat)
    requires ReadChain(env, records) == Some(v) && k < |records| && Linked(records[k])
    ensures LinkOf(records[k]).chain == Advance(records[k].stamp.algorithm, LinkOf(records[k]).prev, Committed(records[k]))
    ensures |LinkOf(records[k]).prev| == records[k].stamp.algorithm.size
  {
    var before := Before(env, records, v, k);
  }

  predicate Stretch(records: seq<Record>, j: nat, k: nat) {
    j <= k < |records| && forall i :: j <= i <= k ==> Linked(records[i]) && (LinkOf(records[i]).restart ==> i == j)
  }

  ghost predicate OneAlgorithm(records: seq<Record>, j: nat, k: nat, a: Algorithm) {
    j <= k < |records| && forall i :: j <= i <= k ==> Linked(records[i]) && records[i].stamp.algorithm == a
  }

  /** The chain value after the records, from a start. */
  function ValueAfter(a: Algorithm, start: Bytes, records: seq<Record>): (chain: Bytes)
    requires |start| == a.size && AllStamped(records)
    ensures |chain| == a.size
  {
    ChainOf(a, start, History(records))
  }

  lemma ValueSnoc(a: Algorithm, start: Bytes, records: seq<Record>, r: Record)
    requires AllStamped(records) && r.stamp.Stamped? && |start| == a.size
    ensures AllStamped(records + [r])
    ensures ValueAfter(a, start, records + [r]) == Advance(a, ValueAfter(a, start, records), Committed(r))
  {
    assert (records + [r])[..|records|] == records;
    var h := History(records + [r]);
    assert h == History(records) + [Committed(r)];
    assert h[..|records|] == History(records);
  }

  /** A linked record whose chain value is one step behind the value it starts from. */
  predicate Advances(r: Record) {
    Linked(r) && |LinkOf(r).prev| == r.stamp.algorithm.size
    && LinkOf(r).chain == Advance(r.stamp.algorithm, LinkOf(r).prev, Committed(r))
  }

  /** Each record starts from the chain value of the one before. */
  ghost predicate Meeting(s: seq<Record>, a: Algorithm) {
    forall i :: 0 <= i < |s| ==>
      Advances(s[i]) && s[i].stamp.algorithm == a && (i > 0 ==> Linked(s[i - 1]) && LinkOf(s[i]).prev == LinkOf(s[i - 1]).chain)
  }

  lemma {:induction false} MeetingChain(s: seq<Record>, a: Algorithm)
    requires s != [] && Meeting(s, a)
    ensures Linked(s[0]) && |LinkOf(s[0]).prev| == a.size && Linked(s[|s| - 1])
    ensures AllStamped(s) && LinkOf(s[|s| - 1]).chain == ValueAfter(a, LinkOf(s[0]).prev, s)
  {
    var init, last := s[..|s| - 1], s[|s| - 1];
    assert s == init + [last];
    if init != [] { MeetingChain(init, a); }
    ValueSnoc(a, LinkOf(s[0]).prev, init, last);
  }

  lemma StretchMeets(env: Env, records: seq<Record>, v: Reader, a: Algorithm, j: nat, k: nat)
    requires ReadChain(env, records) == Some(v) && Stretch(records, j, k) && OneAlgorithm(records, j, k, a)
    ensures Meeting(records[j..k + 1], a)
  {
    forall i | j <= i <= k ensures Advances(records[i]) && (i > j ==> LinkOf(records[i]).prev == LinkOf(records[i - 1]).chain) {
      LinkAdvances(env, records, v, i);
      if i > j { LinksMeet(env, records, v, i); }
    }
  }

  /** The chain value of a record is that of the whole stretch before it, from wherever the stretch starts. */
  lemma StretchChain(env: Env, records: seq<Record>, v: Reader, a: Algorithm, j: nat, k: nat)
    requires ReadChain(env, records) == Some(v) && Stretch(records, j, k) && OneAlgorithm(records, j, k, a)
    ensures |LinkOf(records[j]).prev| == a.size && AllStamped(records[j..k + 1])
    ensures LinkOf(records[k]).chain == ValueAfter(a, LinkOf(records[j]).prev, records[j..k + 1])
  {
    var s := records[j..k + 1];
    assert s[0] == records[j] && s[|s| - 1] == records[k];
    assert Meeting(s, a) by { StretchMeets(env, records, v, a, j, k); }
    MeetingChain(s, a);
  }

  // Tamper evidence

  /** The records an anchor covers, the anchor last. */
  function Window(records: seq<Record>, k: nat): seq<Record>
    requires k < |records| && records[k].event.Closing? && 0 <= WindowPlace(records, k) <= k
  {
    records[WindowPlace(records, k)..k + 1]
  }

  /** The records of the window fit the widths in which the chain encodes them. */
  predicate WindowFits(records: seq<Record>, k: nat)
    requires k < |records| && records[k].event.Closing?
  {
    0 <= WindowPlace(records, k) <= k && AllStamped(Window(records, k)) && AllFit(History(Window(records, k)))
  }

  /** The first record of an anchor's window starts from this chain value. */
  predicate StartsFrom(records: seq<Record>, k: nat, start: Bytes)
    requires k < |records| && records[k].event.Closing? && 0 <= WindowPlace(records, k) <= k
  {
    var first := records[WindowPlace(records, k)];
    Linked(first) && LinkOf(first).prev == start
  }

  /** The chain value an anchor's window starts from, and the window's history. */
  lemma AnchorCommits(env: Env, records: seq<Record>, v: Reader, k: nat) returns (start: Bytes)
    requires ReadChain(env, records) == Some(v) && k < |records| && records[k].event.Closing?
    ensures 0 <= WindowPlace(records, k) <= k && Linked(records[k]) && AllStamped(Window(records, k))
    ensures StartsFrom(records, k, start)
    ensures var a := records[k].stamp.algorithm;
            |start| == a.size && LinkOf(records[k]).chain == ChainOf(a, start, History(Window(records, k)))
  {
    AnchorsTile(env, records, v, k);
    var j := WindowPlace(records, k);
    assert Covered(records, j, k, j) && Covered(records, j, k, k);
    var a := records[k].stamp.algorithm;
    LinkAdvances(env, records, v, j);
    WindowIsStretch(records, j, k, a);
    StretchChain(env, records, v, a, j, k);
    start := LinkOf(records[j]).prev;
  }

  lemma WindowIsStretch(records: seq<Record>, j: nat, k: nat, a: Algorithm)
    requires j <= k < |records| && records[k].event.Closing? && Linked(records[k]) && a == records[k].stamp.algorithm
    requires forall i :: j <= i <= k ==> Covered(records, j, k, i)
    ensures Stretch(records, j, k) && OneAlgorithm(records, j, k, a)
  {
    forall i | j <= i <= k
      ensures Linked(records[i]) && (LinkOf(records[i]).restart ==> i == j) && records[i].stamp.algorithm == a
    {
      assert Covered(records, j, k, i);
    }
  }

  /** The statement of a linked anchor for a signer. */
  function AnchorStatement(env: Env, r: Record, signer: Signer): Signing.Statement
    requires Linked(r) && r.event.Closing?
  {
    StatementOf(env, r.identity, r.stamp, signer, r.event.anchor.from, r.event.anchor.to)
  }

  /** Two inputs with the same digest behind two windows with the same checkpoint hash, if the windows differ. */
  function WindowCollision(a: Algorithm, f: Signing.Statement, s: Bytes, h: seq<Fields>, g: Signing.Statement, t: Bytes, l: seq<Fields>)
    : Option<(Bytes, Bytes)>
    requires |s| == |t| == a.size
  {
    if Signing.Encode(f) != Signing.Encode(g) then Some((Signing.Encode(f), Signing.Encode(g)))
    else if |h| != |l| then None
    else FindCollision(a, s, h, t, l)
  }

  /**
   * A signature over a checkpoint hash fixes the window: if anchors of two such logs have the same hash, their
   * windows hold the same records in sequence, time, severity and body, or the hash function collides.
   */
  lemma SameCheckpointSameWindow(env: Env, p: seq<Record>, v: Reader, k: nat, x: Signer,
                                 q: seq<Record>, w: Reader, m: nat, y: Signer) returns (s: Bytes, t: Bytes)
    requires ReadChain(env, p) == Some(v) && k < |p| && p[k].event.Closing? && Linked(p[k])
    requires ReadChain(env, q) == Some(w) && m < |q| && q[m].event.Closing? && Linked(q[m])
    requires p[k].stamp.algorithm == q[m].stamp.algorithm
    requires Signing.InRange(AnchorStatement(env, p[k], x)) && Signing.InRange(AnchorStatement(env, q[m], y))
    requires Digest(p[k].stamp.algorithm, Signing.Encode(AnchorStatement(env, p[k], x)))
             == Digest(q[m].stamp.algorithm, Signing.Encode(AnchorStatement(env, q[m], y)))
    requires WindowFits(p, k) && WindowFits(q, m)
    ensures var a := p[k].stamp.algorithm;
            var h, l := History(Window(p, k)), History(Window(q, m));
            |s| == |t| == a.size && StartsFrom(p, k, s) && StartsFrom(q, m, t)
            && match WindowCollision(a, AnchorStatement(env, p[k], x), s, h, AnchorStatement(env, q[m], y), t, l)
               case None => h == l && AnchorStatement(env, p[k], x) == AnchorStatement(env, q[m], y)
               case Some((one, other)) => Collide(a, one, other)
  {
    s := AnchorCommits(env, p, v, k);
    t := AnchorCommits(env, q, w, m);
    var a, f, g := p[k].stamp.algorithm, AnchorStatement(env, p[k], x), AnchorStatement(env, q[m], y);
    if Signing.Encode(f) == Signing.Encode(g) {
      Signing.StatementInjective(f, g);
      assert f.finalChain == LinkOf(p[k]).chain && g.finalChain == LinkOf(q[m]).chain;
      assert f.anchorFrom == p[k].event.anchor.from && g.anchorFrom == q[m].event.anchor.from;
      SameChainSameHistory(a, s, History(Window(p, k)), t, History(Window(q, m)));
    }
  }
}

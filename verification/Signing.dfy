/** src/logging/signing.go: the statement a signed anchor is made over. */
module Signing {
  import opened Bytes
  import opened Integrity

  const CHECKPOINT_DOMAIN := Ascii("airgap-log-checkpoint-v1")

  /** The fields of a checkpoint statement, strings first. */
  datatype Statement = Statement(
    version: Bytes, hashAlgorithm: Bytes, signatureAlg: Bytes, signerID: Bytes, keyID: Bytes,
    runID: Bytes, segmentID: Bytes, windowID: Bytes, serviceName: Bytes, serviceInstance: Bytes,
    processStartNano: int, anchorFrom: int, anchorTo: int, previousChain: Bytes, finalChain: Bytes)

  function Texts(f: Statement): seq<Bytes> {
    [f.version, f.hashAlgorithm, f.signatureAlg, f.signerID, f.keyID,
     f.runID, f.segmentID, f.windowID, f.serviceName, f.serviceInstance]
  }

  function Frames(values: seq<Bytes>): Bytes {
    if values == [] then [] else Frames(values[..|values| - 1]) + Frame(values[|values| - 1])
  }

  function Encode(f: Statement): Bytes {
    CHECKPOINT_DOMAIN + [0] + Frames(Texts(f))
    + Put(f.processStartNano, LONG) + Put(f.anchorFrom, LONG) + Put(f.anchorTo, LONG)
    + Frame(f.previousChain) + Frame(f.finalChain)
  }

  lemma FramesSnoc(values: seq<Bytes>, value: Bytes)
    ensures Frames(values + [value]) == Frames(values) + Frame(value)
  {
    assert (values + [value])[..|values|] == values;
  }

  /** The appends of framed strings, one after the other. */
  method AppendFrames(before: Bytes, values: seq<Bytes>) returns (statement: Bytes)
    ensures statement == before + Frames(values)
  {
    statement := before;
    ghost var done: seq<Bytes> := [];
    for i := 0 to |values|
      invariant |done| == i && forall j :: 0 <= j < i ==> done[j] == values[j]
      invariant statement == before + Frames(done)
    {
      FramesSnoc(done, values[i]);
      done := done + [values[i]];
      statement := statement + Frame(values[i]);
    }
    assert done == values;
  }

  method BuildCheckpointStatement(f: Statement) returns (statement: Bytes)
    ensures statement == Encode(f)
  {
    statement := CHECKPOINT_DOMAIN;
    statement := statement + [0];
    statement := AppendFrames(statement, Texts(f));
    statement := statement + Put(f.processStartNano, LONG);
    statement := statement + Put(f.anchorFrom, LONG);
    statement := statement + Put(f.anchorTo, LONG);
    statement := statement + Frame(f.previousChain);
    statement := statement + Frame(f.finalChain);
  }

  // Injectivity

  lemma Cut(a: Bytes, x: Bytes, b: Bytes, y: Bytes)
    requires |a| == |b| && a + x == b + y
    ensures a == b && x == y
  {
    assert (a + x)[..|a|] == a && (b + y)[..|a|] == b;
    assert (a + x)[|a|..] == x && (b + y)[|a|..] == y;
  }

  /** The integers that PutUint64 of a uint64 or of a converted int64 tells apart. */
  predicate SameKind(m: int, n: int, width: nat) {
    (0 <= m < Pow256(width) && 0 <= n < Pow256(width)) || (IsSigned(m, width) && IsSigned(n, width))
  }

  predicate IsSigned(n: int, width: nat) {
    0 <= 2 * n + Pow256(width) && 2 * n < Pow256(width)
  }

  lemma PutInjective(m: int, n: int, width: nat)
    requires SameKind(m, n, width) && Put(m, width) == Put(n, width)
    ensures m == n
  {
    var size := Pow256(width);
    Wraps(m, size);
    Wraps(n, size);
    BigEndianInjective(m % size, n % size, width);
  }

  lemma Wraps(n: int, size: nat)
    requires size > 0 && 0 <= n + size && n < size
    ensures n % size == if n < 0 then n + size else n
  {
    if n < 0 { assert n % size == (n + size) % size; }
  }

  predicate Short(value: Bytes) {
    |value| < Pow256(SHORT)
  }

  /** A framed value and what follows it are told apart. */
  lemma FrameCut(a: Bytes, x: Bytes, b: Bytes, y: Bytes)
    requires Short(a) && Short(b) && Frame(a) + x == Frame(b) + y
    ensures a == b && x == y
  {
    assert Frame(a) + x == Put(|a|, SHORT) + (a + x);
    assert Frame(b) + y == Put(|b|, SHORT) + (b + y);
    Cut(Put(|a|, SHORT), a + x, Put(|b|, SHORT), b + y);
    PutInjective(|a|, |b|, SHORT);
    Cut(a, x, b, y);
  }

  predicate AllShort(values: seq<Bytes>) {
    forall i :: 0 <= i < |values| ==> Short(values[i])
  }

  lemma FramesLast(values: seq<Bytes>, x: Bytes)
    requires values != []
    ensures Frames(values) + x == Frames(values[..|values| - 1]) + (Frame(values[|values| - 1]) + x)
  {
  }

  lemma SameLists(a: seq<Bytes>, b: seq<Bytes>)
    requires |a| == |b| > 0 && a[..|a| - 1] == b[..|b| - 1] && a[|a| - 1] == b[|b| - 1]
    ensures a == b
  {
    assert a == a[..|a| - 1] + [a[|a| - 1]] && b == b[..|b| - 1] + [b[|b| - 1]];
  }

  lemma {:induction false} FramesCut(a: seq<Bytes>, x: Bytes, b: seq<Bytes>, y: Bytes)
    requires |a| == |b| && AllShort(a) && AllShort(b) && Frames(a) + x == Frames(b) + y
    ensures a == b && x == y
  {
    if a != [] {
      var n := |a| - 1;
      FramesLast(a, x);
      FramesLast(b, y);
      FramesCut(a[..n], Frame(a[n]) + x, b[..n], Frame(b[n]) + y);
      FrameCut(a[n], x, b[n], y);
      SameLists(a, b);
    } else {
      assert Frames(a) + x == x && Frames(b) + y == y;
    }
  }

  /** Lengths below 2^32, uint64 numbers and an int64 start time. */
  predicate InRange(f: Statement) {
    && AllShort(Texts(f)) && Short(f.previousChain) && Short(f.finalChain)
    && 0 <= f.anchorFrom < Pow256(LONG) && 0 <= f.anchorTo < Pow256(LONG)
    && IsSigned(f.processStartNano, LONG)
  }

  /** The part of a statement behind its strings. */
  function Tail(f: Statement): Bytes {
    Put(f.processStartNano, LONG) + (Put(f.anchorFrom, LONG) + (Put(f.anchorTo, LONG)
    + (Frame(f.previousChain) + (Frame(f.finalChain) + []))))
  }

  lemma EncodeByTail(f: Statement)
    ensures Encode(f) == (CHECKPOINT_DOMAIN + [0]) + (Frames(Texts(f)) + Tail(f))
  {
  }

  lemma TailInjective(f: Statement, g: Statement)
    requires InRange(f) && InRange(g) && Tail(f) == Tail(g)
    ensures f.processStartNano == g.processStartNano && f.anchorFrom == g.anchorFrom && f.anchorTo == g.anchorTo
    ensures f.previousChain == g.previousChain && f.finalChain == g.finalChain
  {
    var fp, gp := Frame(f.previousChain) + (Frame(f.finalChain) + []), Frame(g.previousChain) + (Frame(g.finalChain) + []);
    var ft, gt := Put(f.anchorTo, LONG) + fp, Put(g.anchorTo, LONG) + gp;
    var ff, gf := Put(f.anchorFrom, LONG) + ft, Put(g.anchorFrom, LONG) + gt;
    Cut(Put(f.processStartNano, LONG), ff, Put(g.processStartNano, LONG), gf);
    Cut(Put(f.anchorFrom, LONG), ft, Put(g.anchorFrom, LONG), gt);
    Cut(Put(f.anchorTo, LONG), fp, Put(g.anchorTo, LONG), gp);
    PutInjective(f.processStartNano, g.processStartNano, LONG);
    PutInjective(f.anchorFrom, g.anchorFrom, LONG);
    PutInjective(f.anchorTo, g.anchorTo, LONG);
    FrameCut(f.previousChain, Frame(f.finalChain) + [], g.previousChain, Frame(g.finalChain) + []);
    FrameCut(f.finalChain, [], g.finalChain, []);
  }

  /** Equal checkpoint statements have equal fields: a signature covers every one of them. */
  lemma StatementInjective(f: Statement, g: Statement)
    requires InRange(f) && InRange(g) && Encode(f) == Encode(g)
    ensures f == g
  {
    EncodeByTail(f);
    EncodeByTail(g);
    Cut(CHECKPOINT_DOMAIN + [0], Frames(Texts(f)) + Tail(f), CHECKPOINT_DOMAIN + [0], Frames(Texts(g)) + Tail(g));
    FramesCut(Texts(f), Tail(f), Texts(g), Tail(g));
    TailInjective(f, g);
    assert Texts(f)[0] == Texts(g)[0] && Texts(f)[1] == Texts(g)[1] && Texts(f)[2] == Texts(g)[2];
    assert Texts(f)[3] == Texts(g)[3] && Texts(f)[4] == Texts(g)[4] && Texts(f)[5] == Texts(g)[5];
    assert Texts(f)[6] == Texts(g)[6] && Texts(f)[7] == Texts(g)[7] && Texts(f)[8] == Texts(g)[8];
  }
}

/** Two different histories cannot share a chain value unless the hash function collides. */
module Tampering {
  import opened Bytes
  import opened Options
  import opened Integrity
  import opened Signing

  /** The chain value after a list of records. */
  function ChainOf(a: Algorithm, start: Bytes, records: seq<Fields>): (chain: Bytes)
    requires |start| == a.size
    ensures |chain| == a.size
  {
    if records == [] then start
    else Advance(a, ChainOf(a, start, records[..|records| - 1]), records[|records| - 1])
  }

  /** The record fits the widths in which the chain encodes it. */
  predicate Fits(f: Fields) {
    f.number < Pow256(LONG) && IsSigned(f.time, LONG) && f.severity < Pow256(SHORT) && Short(f.text)
  }

  predicate AllFit(records: seq<Fields>) {
    records == [] || (AllFit(records[..|records| - 1]) && Fits(records[|records| - 1]))
  }

  /** One chain step commits to the previous value, the metadata and the payload hash, each by itself. */
  lemma ChainInputInjective(p: Bytes, f: Fields, h: Bytes, q: Bytes, g: Fields, k: Bytes)
    requires |p| == |q| && Fits(f) && Fits(g) && ChainInput(p, f, h) == ChainInput(q, g, k)
    ensures p == q && h == k && f.(body := g.body) == g
  {
    var fs, gs := Put(f.severity, SHORT) + (Frame(f.text) + h), Put(g.severity, SHORT) + (Frame(g.text) + k);
    var ft, gt := Put(f.time, LONG) + fs, Put(g.time, LONG) + gs;
    var fn, gn := Put(f.number, LONG) + ft, Put(g.number, LONG) + gt;
    Cut(CHAIN_DOMAIN + [0], p + fn, CHAIN_DOMAIN + [0], q + gn);
    Cut(p, fn, q, gn);
    Cut(Put(f.number, LONG), ft, Put(g.number, LONG), gt);
    Cut(Put(f.time, LONG), fs, Put(g.time, LONG), gs);
    Cut(Put(f.severity, SHORT), Frame(f.text) + h, Put(g.severity, SHORT), Frame(g.text) + k);
    FrameCut(f.text, h, g.text, k);
    PutInjective(f.number, g.number, LONG);
    PutInjective(f.time, g.time, LONG);
    PutInjective(f.severity, g.severity, SHORT);
  }

  predicate Collide(a: Algorithm, x: Bytes, y: Bytes) {
    x != y && Digest(a, x) == Digest(a, y)
  }

  /** Two different inputs with the same digest behind two equal chain steps; None if the steps are the same. */
  function StepCollision(a: Algorithm, p: Bytes, f: Fields, q: Bytes, g: Fields): Option<(Bytes, Bytes)> {
    var x, y := ChainInput(p, f, Digest(a, f.body)), ChainInput(q, g, Digest(a, g.body));
    if x != y then Some((x, y)) else if f.body != g.body then Some((f.body, g.body)) else None
  }

  lemma SameStep(a: Algorithm, p: Bytes, f: Fields, q: Bytes, g: Fields)
    requires |p| == |q| && Fits(f) && Fits(g) && Advance(a, p, f) == Advance(a, q, g)
    ensures match StepCollision(a, p, f, q, g)
            case None => p == q && f == g
            case Some((x, y)) => Collide(a, x, y)
  {
    var h, k := Digest(a, f.body), Digest(a, g.body);
    if ChainInput(p, f, h) == ChainInput(q, g, k) { ChainInputInjective(p, f, h, q, g, k); }
  }

  /** The last pair of steps of two equally long chains that collides. */
  function FindCollision(a: Algorithm, s: Bytes, rs: seq<Fields>, t: Bytes, qs: seq<Fields>): Option<(Bytes, Bytes)>
    requires |s| == |t| == a.size && |rs| == |qs|
  {
    if rs == [] then None
    else
      var n := |rs| - 1;
      match StepCollision(a, ChainOf(a, s, rs[..n]), rs[n], ChainOf(a, t, qs[..n]), qs[n])
      case Some(c) => Some(c)
      case None => FindCollision(a, s, rs[..n], t, qs[..n])
  }

  lemma SameHistory(rs: seq<Fields>, qs: seq<Fields>)
    requires |rs| == |qs| > 0 && rs[..|rs| - 1] == qs[..|qs| - 1] && rs[|rs| - 1] == qs[|qs| - 1]
    ensures rs == qs
  {
    assert rs == rs[..|rs| - 1] + [rs[|rs| - 1]] && qs == qs[..|qs| - 1] + [qs[|qs| - 1]];
  }

  /**
   * Tamper evidence: two equally long histories with the same final chain value are the same history from the
   * same start, record by record in sequence, time, severity and body, or they exhibit a hash collision.
   */
  lemma {:induction false} SameChainSameHistory(a: Algorithm, s: Bytes, rs: seq<Fields>, t: Bytes, qs: seq<Fields>)
    requires |s| == |t| == a.size && |rs| == |qs|
    requires AllFit(rs) && AllFit(qs)
    requires ChainOf(a, s, rs) == ChainOf(a, t, qs)
    ensures match FindCollision(a, s, rs, t, qs)
            case None => s == t && rs == qs
            case Some((x, y)) => Collide(a, x, y)
  {
    if rs != [] {
      var n := |rs| - 1;
      var p, q := ChainOf(a, s, rs[..n]), ChainOf(a, t, qs[..n]);
      SameStep(a, p, rs[n], q, qs[n]);
      if StepCollision(a, p, rs[n], q, qs[n]) == None {
        SameChainSameHistory(a, s, rs[..n], t, qs[..n]);
        if rs[..n] == qs[..n] { SameHistory(rs, qs); }
      }
    }
  }

  lemma {:induction false} ChainInTwo(a: Algorithm, start: Bytes, records: seq<Fields>, n: nat)
    requires |start| == a.size && n <= |records|
    ensures ChainOf(a, start, records) == ChainOf(a, ChainOf(a, start, records[..n]), records[n..])
  {
    if n == |records| {
      assert records[..n] == records && records[n..] == [];
    } else {
      var init, last := records[..|records| - 1], records[|records| - 1];
      ChainInTwo(a, start, init, n);
      assert init[..n] == records[..n] && records[n..][..|records[n..]| - 1] == init[n..];
      assert records[n..][|records[n..]| - 1] == last;
    }
  }

  lemma {:induction false} TailFits(records: seq<Fields>, n: nat)
    requires AllFit(records) && n <= |records|
    ensures AllFit(records[n..])
  {
    if n < |records| {
      TailFits(records[..|records| - 1], n);
      assert records[n..][..|records[n..]| - 1] == records[..|records| - 1][n..];
    } else {
      assert records[n..] == [];
    }
  }
}

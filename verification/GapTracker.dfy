/** src/gap_util/gap_util.go: which numbers of a partition are missing, as a list of gaps. */
module GapTracker {
  import opened Options

  datatype Gap = Gap(from: int, to: int, timestamp: int)

  datatype Gaps = Gaps(expected: int, gaps: seq<Gap>)

  const NONE := Gaps(0, [])

  predicate Holds(g: Gap, n: int) {
    g.from <= n <= g.to
  }

  /** getGapForNumber: the place of the first gap with the number, if any. */
  function Find(gaps: seq<Gap>, n: int): (r: Option<nat>)
    ensures r.Some? ==> r.value < |gaps| && Holds(gaps[r.value], n)
    ensures r == None ==> forall i :: 0 <= i < |gaps| ==> !Holds(gaps[i], n)
  {
    if gaps == [] then None
    else if Find(gaps[..|gaps| - 1], n).Some? then Find(gaps[..|gaps| - 1], n)
    else if Holds(gaps[|gaps| - 1], n) then Some(|gaps| - 1)
    else None
  }

  /** Take a number out of the gap that holds it: remove, shrink at either end, or split. */
  function Close(gaps: seq<Gap>, i: nat, n: int): seq<Gap>
    requires i < |gaps| && Holds(gaps[i], n)
  {
    var g := gaps[i];
    if n == g.from == g.to then gaps[..i] + gaps[i + 1..]
    else if n == g.from then gaps[i := g.(from := n + 1)]
    else if n == g.to then gaps[i := g.(to := n - 1)]
    else gaps[i := g.(to := n - 1)] + [g.(from := n + 1)]
  }

  /** CheckNextNumber on the gaps of one key, and whether it reports a duplicate. */
  function Check(s: Gaps, n: int, now: int): (Gaps, bool) {
    if n == s.expected then (s.(expected := n + 1), false)
    else if n > s.expected then (Gaps(n + 1, s.gaps + [Gap(s.expected, n - 1, now)]), false)
    else
      match Find(s.gaps, n)
      case Some(i) => (s.(gaps := Close(s.gaps, i, n)), false)
      case None => (s, true)
  }

  /** A maximal run of numbers not received. */
  predicate MaximalRun(g: Gap, received: set<int>) {
    && 0 <= g.from <= g.to && (g.from == 0 || g.from - 1 in received) && g.to + 1 in received
    && forall n :: g.from <= n <= g.to ==> n !in received
  }

  predicate Covered(gaps: seq<Gap>, n: int) {
    exists i :: 0 <= i < |gaps| && Holds(gaps[i], n)
  }

  /** How many numbers the gaps hold. */
  function Size(gaps: seq<Gap>): int {
    if gaps == [] then 0
    else Size(gaps[..|gaps| - 1]) + (gaps[|gaps| - 1].to - gaps[|gaps| - 1].from + 1)
  }

  /** The gaps are exactly the maximal runs of missing numbers, each once, and nothing is expected that has come. */
  ghost predicate Tracks(s: Gaps, received: set<int>) {
    && (forall n :: n in received ==> 0 <= n < s.expected)
    && (if s.expected == 0 then received == {} else s.expected - 1 in received)
    && AllRuns(s.gaps, received) && Distinct(s.gaps) && AllCovered(s, received) && s.expected >= 0
  }

  predicate AllRuns(gaps: seq<Gap>, received: set<int>) {
    forall i :: 0 <= i < |gaps| ==> MaximalRun(gaps[i], received)
  }

  predicate Distinct(gaps: seq<Gap>) {
    forall i, j :: 0 <= i < j < |gaps| ==> gaps[i].from != gaps[j].from
  }

  predicate AllCovered(s: Gaps, received: set<int>) {
    forall n :: 0 <= n < s.expected && n !in received ==> Covered(s.gaps, n)
  }

  /** The size invariants: what is missing is what has not come, and there are no more gaps than numbers received. */
  predicate Sized(s: Gaps, received: set<int>) {
    Size(s.gaps) + |received| == s.expected && |s.gaps| <= |received|
  }

  lemma InSequence(s: Gaps, received: set<int>)
    requires Tracks(s, received)
    ensures Tracks(s.(expected := s.expected + 1), received + {s.expected})
  {
    forall i | 0 <= i < |s.gaps| ensures MaximalRun(s.gaps[i], received + {s.expected}) {
      assert MaximalRun(s.gaps[i], received);
    }
  }

  lemma NewGap(s: Gaps, received: set<int>, n: int, now: int)
    requires Tracks(s, received) && n > s.expected
    ensures Tracks(Check(s, n, now).0, received + {n})
  {
    var s' := Check(s, n, now).0;
    forall i | 0 <= i < |s'.gaps| ensures MaximalRun(s'.gaps[i], received + {n}) {
      if i < |s.gaps| { assert MaximalRun(s.gaps[i], received); }
    }
    forall m | 0 <= m < s'.expected && m !in received + {n} ensures Covered(s'.gaps, m) {
      if m < s.expected {
        var i :| 0 <= i < |s.gaps| && Holds(s.gaps[i], m);
        assert s'.gaps[i] == s.gaps[i];
      } else {
        assert Holds(s'.gaps[|s.gaps|], m);
      }
    }
  }

  lemma RunsMeet(g: Gap, h: Gap, received: set<int>, n: int)
    requires MaximalRun(g, received) && MaximalRun(h, received) && Holds(g, n) && Holds(h, n)
    ensures g.from == h.from && g.to == h.to
  {
    assert g.from - 1 in received || g.from == 0;
    assert h.from - 1 in received || h.from == 0;
    assert Holds(h, g.from - 1) ==> g.from == 0;
    assert Holds(g, h.from - 1) ==> h.from == 0;
    assert !Holds(h, g.to + 1) && !Holds(g, h.to + 1);
  }

  /** Another gap stays a maximal run when a number of this gap arrives. */
  lemma OtherRun(s: Gaps, received: set<int>, i: nat, n: int, j: nat)
    requires Tracks(s, received) && i < |s.gaps| && j < |s.gaps| && i != j && Holds(s.gaps[i], n)
    ensures MaximalRun(s.gaps[j], received + {n}) && !Holds(s.gaps[j], n) && s.gaps[j].from != n + 1
  {
    assert MaximalRun(s.gaps[i], received) && MaximalRun(s.gaps[j], received);
    if Holds(s.gaps[j], n) { RunsMeet(s.gaps[i], s.gaps[j], received, n); }
  }

  /** Where gap k of the closed list comes from. */
  function Origin(gaps: seq<Gap>, i: nat, n: int, k: nat): nat
    requires i < |gaps| && Holds(gaps[i], n)
  {
    if n == gaps[i].from == gaps[i].to && k >= i then k + 1 else if k == |gaps| then i else k
  }

  /** A gap of the closed list is an old one, or what is left of the one that held the number. */
  lemma CloseAt(gaps: seq<Gap>, i: nat, n: int, k: nat)
    requires i < |gaps| && Holds(gaps[i], n) && k < |Close(gaps, i, n)|
    ensures var o, g := Origin(gaps, i, n, k), Close(gaps, i, n)[k];
            o < |gaps| && if o != i then g == gaps[o] && k != |gaps|
                          else if k == |gaps| then gaps[i].from < n < gaps[i].to && g == gaps[i].(from := n + 1)
                          else if n == gaps[i].from then n < gaps[i].to && g == gaps[i].(from := n + 1)
                          else g == gaps[i].(to := n - 1)
  {
  }

  lemma CloseRun(s: Gaps, received: set<int>, i: nat, n: int, k: nat)
    requires Tracks(s, received) && i < |s.gaps| && Holds(s.gaps[i], n) && k < |Close(s.gaps, i, n)|
    ensures MaximalRun(Close(s.gaps, i, n)[k], received + {n})
  {
    CloseAt(s.gaps, i, n, k);
    assert MaximalRun(s.gaps[i], received);
    var o := Origin(s.gaps, i, n, k);
    if o != i { OtherRun(s, received, i, n, o); }
  }

  lemma CloseDistinct(s: Gaps, received: set<int>, i: nat, n: int, k: nat, l: nat)
    requires Tracks(s, received) && i < |s.gaps| && Holds(s.gaps[i], n) && k < l < |Close(s.gaps, i, n)|
    ensures Close(s.gaps, i, n)[k].from != Close(s.gaps, i, n)[l].from
  {
    CloseAt(s.gaps, i, n, k);
    CloseAt(s.gaps, i, n, l);
    var o, p := Origin(s.gaps, i, n, k), Origin(s.gaps, i, n, l);
    if o != i { OtherRun(s, received, i, n, o); }
    if p != i { OtherRun(s, received, i, n, p); }
  }

  lemma CloseCovers(gaps: seq<Gap>, i: nat, n: int, j: nat, m: int)
    requires i < |gaps| && Holds(gaps[i], n) && j < |gaps| && Holds(gaps[j], m) && m != n
    ensures Covered(Close(gaps, i, n), m)
  {
    var c, g := Close(gaps, i, n), gaps[i];
    if n == g.from == g.to {
      assert c[if j < i then j else j - 1] == gaps[j];
    } else if j == i && g.from < n < m {
      assert n < g.to && Holds(c[|gaps|], m);
    } else {
      assert Holds(c[j], m);
    }
  }

  lemma CloseTracks(s: Gaps, received: set<int>, i: nat, n: int)
    requires Tracks(s, received) && i < |s.gaps| && Holds(s.gaps[i], n)
    ensures n !in received && Tracks(s.(gaps := Close(s.gaps, i, n)), received + {n})
  {
    var c := Close(s.gaps, i, n);
    assert MaximalRun(s.gaps[i], received);
    forall k | 0 <= k < |c| ensures MaximalRun(c[k], received + {n}) { CloseRun(s, received, i, n, k); }
    forall k, l | 0 <= k < l < |c| ensures c[k].from != c[l].from { CloseDistinct(s, received, i, n, k, l); }
    forall m | 0 <= m < s.expected && m !in received + {n} ensures Covered(c, m) {
      assert Covered(s.gaps, m);
      var j :| 0 <= j < |s.gaps| && Holds(s.gaps[j], m);
      CloseCovers(s.gaps, i, n, j, m);
    }
  }

  /** One call: the gaps stay exact, and a duplicate is reported exactly for numbers received before, and negative ones. */
  lemma CheckTracks(s: Gaps, received: set<int>, n: int, now: int)
    requires Tracks(s, received)
    ensures var (s', duplicate) := Check(s, n, now);
            Tracks(s', received + if n >= 0 then {n} else {}) && duplicate == (n < 0 || n in received)
  {
    if n == s.expected {
      InSequence(s, received);
    } else if n > s.expected {
      NewGap(s, received, n, now);
    } else {
      match Find(s.gaps, n)
      case Some(i) =>
        assert MaximalRun(s.gaps[i], received);
        CloseTracks(s, received, i, n);
      case None =>
        if n >= 0 { assert !Covered(s.gaps, n); }
        assert n in received ==> received + {n} == received;
        assert received + {} == received;
    }
  }

  // Sizes

  lemma SizeSnoc(gaps: seq<Gap>, g: Gap)
    ensures Size(gaps + [g]) == Size(gaps) + (g.to - g.from + 1)
  {
    assert (gaps + [g])[..|gaps|] == gaps;
  }

  lemma {:induction false} SizeUpdate(gaps: seq<Gap>, i: nat, g: Gap)
    requires i < |gaps|
    ensures Size(gaps[i := g]) == Size(gaps) + (g.to - g.from) - (gaps[i].to - gaps[i].from)
  {
    var n := |gaps| - 1;
    if i < n {
      assert gaps[i := g][..n] == gaps[..n][i := g];
      SizeUpdate(gaps[..n], i, g);
    } else {
      assert gaps[i := g][..n] == gaps[..n];
    }
  }

  lemma {:induction false} SizeRemove(gaps: seq<Gap>, i: nat)
    requires i < |gaps|
    ensures Size(gaps[..i] + gaps[i + 1..]) == Size(gaps) - (gaps[i].to - gaps[i].from + 1)
  {
    var n := |gaps| - 1;
    if i < n {
      SizeRemove(gaps[..n], i);
      SizeSnoc(gaps[..n][..i] + gaps[..n][i + 1..], gaps[n]);
      assert gaps[..n][..i] + gaps[..n][i + 1..] + [gaps[n]] == gaps[..i] + gaps[i + 1..];
    } else {
      assert gaps[..i] + gaps[i + 1..] == gaps[..n];
    }
  }

  lemma CloseSize(gaps: seq<Gap>, i: nat, n: int)
    requires i < |gaps| && Holds(gaps[i], n)
    ensures Size(Close(gaps, i, n)) == Size(gaps) - 1 && |Close(gaps, i, n)| <= |gaps| + 1
  {
    var g := gaps[i];
    if n == g.from == g.to {
      SizeRemove(gaps, i);
    } else if n == g.from {
      SizeUpdate(gaps, i, g.(from := n + 1));
    } else {
      SizeUpdate(gaps, i, g.(to := n - 1));
      SizeSnoc(gaps[i := g.(to := n - 1)], g.(from := n + 1));
    }
  }

  lemma AddOne(received: set<int>, n: int)
    ensures |received + {n}| == |received| + if n in received then 0 else 1
  {
    if n in received { assert received + {n} == received; }
  }

  lemma CheckSized(s: Gaps, received: set<int>, n: int, now: int)
    requires Tracks(s, received) && Sized(s, received)
    ensures Sized(Check(s, n, now).0, received + if n >= 0 then {n} else {})
  {
    AddOne(received, n);
    if n == s.expected {
      assert n !in received;
    } else if n > s.expected {
      assert n !in received;
      SizeSnoc(s.gaps, Gap(s.expected, n - 1, now));
    } else if Find(s.gaps, n).Some? {
      var i := Find(s.gaps, n).value;
      assert MaximalRun(s.gaps[i], received);
      CloseSize(s.gaps, i, n);
    } else {
      CheckTracks(s, received, n, now);
      assert received + {} == received;
    }
  }

  // Runs

  datatype Arrival = Arrival(number: int, now: int)

  function After(arrivals: seq<Arrival>): Gaps {
    if arrivals == [] then NONE
    else Check(After(arrivals[..|arrivals| - 1]), arrivals[|arrivals| - 1].number, arrivals[|arrivals| - 1].now).0
  }

  /** The numbers received; negative ones are not tracked. */
  function Received(arrivals: seq<Arrival>): set<int> {
    if arrivals == [] then {}
    else
      var n := arrivals[|arrivals| - 1].number;
      Received(arrivals[..|arrivals| - 1]) + if n >= 0 then {n} else {}
  }

  /**
   * After any arrivals, the stored gaps are exactly the maximal runs of missing numbers below the greatest one
   * received, there are no more of them than numbers received, and the numbers missing and received add up.
   */
  lemma {:induction false} GapsAreExact(arrivals: seq<Arrival>)
    ensures Tracks(After(arrivals), Received(arrivals)) && Sized(After(arrivals), Received(arrivals))
  {
    if arrivals != [] {
      var before, a := arrivals[..|arrivals| - 1], arrivals[|arrivals| - 1];
      GapsAreExact(before);
      CheckTracks(After(before), Received(before), a.number, a.now);
      CheckSized(After(before), Received(before), a.number, a.now);
    }
  }

  /** A number is reported as a duplicate exactly when it came before, or is negative. */
  lemma DuplicateIffReceived(arrivals: seq<Arrival>, n: int, now: int)
    ensures Check(After(arrivals), n, now).1 <==> n < 0 || n in Received(arrivals)
  {
    GapsAreExact(arrivals);
    CheckTracks(After(arrivals), Received(arrivals), n, now);
  }

  // Since when a number is missing

  /** The time of the first arrival of a greater number. */
  function FirstAbove(arrivals: seq<Arrival>, m: int): Option<int> {
    if arrivals == [] then None
    else
      var before, a := FirstAbove(arrivals[..|arrivals| - 1], m), arrivals[|arrivals| - 1];
      if before == None && a.number > m then Some(a.now) else before
  }

  /** Every number in a gap is missing since the gap's time. */
  ghost predicate Dated(gaps: seq<Gap>, arrivals: seq<Arrival>) {
    forall i, m :: 0 <= i < |gaps| && Holds(gaps[i], m) ==> FirstAbove(arrivals, m) == Some(gaps[i].timestamp)
  }

  lemma {:induction false} NoneAboveIff(arrivals: seq<Arrival>, m: int)
    requires m >= 0
    ensures FirstAbove(arrivals, m) == None <==> m + 1 >= After(arrivals).expected
  {
    if arrivals != [] {
      NoneAboveIff(arrivals[..|arrivals| - 1], m);
      GapsAreExact(arrivals[..|arrivals| - 1]);
    }
  }

  lemma FirstAboveStays(arrivals: seq<Arrival>, a: Arrival, m: int)
    requires FirstAbove(arrivals, m).Some?
    ensures FirstAbove(arrivals + [a], m) == FirstAbove(arrivals, m)
  {
    assert (arrivals + [a])[..|arrivals|] == arrivals;
  }

  lemma NewGapDated(s: Gaps, arrivals: seq<Arrival>, a: Arrival)
    requires s == After(arrivals) && s.expected >= 0 && Dated(s.gaps, arrivals) && a.number > s.expected
    ensures Dated(Check(s, a.number, a.now).0.gaps, arrivals + [a])
  {
    var gaps := Check(s, a.number, a.now).0.gaps;
    forall i, m | 0 <= i < |gaps| && Holds(gaps[i], m) ensures FirstAbove(arrivals + [a], m) == Some(gaps[i].timestamp) {
      if i < |s.gaps| {
        FirstAboveStays(arrivals, a, m);
      } else {
        NoneAboveIff(arrivals, m);
        assert (arrivals + [a])[..|arrivals|] == arrivals;
      }
    }
  }

  lemma CloseDated(gaps: seq<Gap>, i: nat, n: int, arrivals: seq<Arrival>, a: Arrival)
    requires i < |gaps| && Holds(gaps[i], n) && Dated(gaps, arrivals)
    ensures Dated(Close(gaps, i, n), arrivals + [a])
  {
    var c := Close(gaps, i, n);
    forall k, m | 0 <= k < |c| && Holds(c[k], m) ensures FirstAbove(arrivals + [a], m) == Some(c[k].timestamp) {
      CloseAt(gaps, i, n, k);
      var g := gaps[Origin(gaps, i, n, k)];
      assert Holds(g, m) && g.timestamp == c[k].timestamp;
      FirstAboveStays(arrivals, a, m);
    }
  }

  lemma SameDated(gaps: seq<Gap>, arrivals: seq<Arrival>, a: Arrival)
    requires Dated(gaps, arrivals)
    ensures Dated(gaps, arrivals + [a])
  {
    forall i, m | 0 <= i < |gaps| && Holds(gaps[i], m) ensures FirstAbove(arrivals + [a], m) == Some(gaps[i].timestamp) {
      FirstAboveStays(arrivals, a, m);
    }
  }

  /**
   * The time of a gap is that of the arrival that opened it: the first of a greater number than the gap's. Numbers that
   * come later and shrink or split a gap do not change it.
   */
  lemma {:induction false} GapsAreDated(arrivals: seq<Arrival>)
    ensures Dated(After(arrivals).gaps, arrivals)
  {
    if arrivals != [] {
      var before, a := arrivals[..|arrivals| - 1], arrivals[|arrivals| - 1];
      var s := After(before);
      assert arrivals == before + [a];
      GapsAreDated(before);
      GapsAreExact(before);
      if a.number > s.expected {
        NewGapDated(s, before, a);
      } else if a.number < s.expected && Find(s.gaps, a.number).Some? {
        CloseDated(s.gaps, Find(s.gaps, a.number).value, a.number, before, a);
      } else {
        SameDated(s.gaps, before, a);
      }
    }
  }

  // Reporting

  /** The part of the total of GetFirstGaps that one key adds. */
  function Total(gaps: seq<Gap>): int {
    if gaps == [] then 0 else Total(gaps[..|gaps| - 1]) + (gaps[|gaps| - 1].to - gaps[|gaps| - 1].from)
  }

  lemma {:induction false} TotalIsSizeLess(gaps: seq<Gap>)
    ensures Total(gaps) == Size(gaps) - |gaps|
  {
    if gaps != [] { TotalIsSizeLess(gaps[..|gaps| - 1]); }
  }

  /** The reported total is short of the missing numbers by the number of gaps, so it is right only if there are none. */
  lemma TotalUndercounts(arrivals: seq<Arrival>)
    ensures var s := After(arrivals);
            var missing := s.expected - |Received(arrivals)|;
            Total(s.gaps) == missing - |s.gaps| && (Total(s.gaps) == missing <==> missing == 0)
  {
    var s := After(arrivals);
    GapsAreExact(arrivals);
    TotalIsSizeLess(s.gaps);
    if s.gaps != [] {
      NonNegative(s.gaps[..|s.gaps| - 1]);
      assert MaximalRun(s.gaps[|s.gaps| - 1], Received(arrivals));
    }
  }

  lemma {:induction false} NonNegative(gaps: seq<Gap>)
    requires forall i :: 0 <= i < |gaps| ==> gaps[i].from <= gaps[i].to
    ensures Size(gaps) >= |gaps|
  {
    if gaps != [] { NonNegative(gaps[..|gaps| - 1]); }
  }

  /** The first missing number that has been missing since before `since`, or -1. */
  predicate IsFirst(gaps: seq<Gap>, since: int, min: int) {
    if min == -1 then forall i :: 0 <= i < |gaps| ==> gaps[i].timestamp >= since
    else (exists i :: 0 <= i < |gaps| && gaps[i].from == min && gaps[i].timestamp < since)
         && forall i :: 0 <= i < |gaps| && gaps[i].timestamp < since ==> min <= gaps[i].from
  }

  /** A number that has not come although a greater one has. */
  predicate IsMissing(arrivals: seq<Arrival>, m: int) {
    m >= 0 && m !in Received(arrivals) && FirstAbove(arrivals, m).Some?
  }

  lemma MissingIsHeld(arrivals: seq<Arrival>, m: int) returns (i: nat)
    requires IsMissing(arrivals, m)
    ensures i < |After(arrivals).gaps| && Holds(After(arrivals).gaps[i], m)
    ensures FirstAbove(arrivals, m) == Some(After(arrivals).gaps[i].timestamp)
  {
    GapsAreExact(arrivals);
    GapsAreDated(arrivals);
    NoneAboveIff(arrivals, m);
    assert Covered(After(arrivals).gaps, m);
    i :| 0 <= i < |After(arrivals).gaps| && Holds(After(arrivals).gaps[i], m);
  }

  lemma StartIsMissing(arrivals: seq<Arrival>, i: nat)
    requires i < |After(arrivals).gaps|
    ensures var g := After(arrivals).gaps[i]; IsMissing(arrivals, g.from) && FirstAbove(arrivals, g.from) == Some(g.timestamp)
  {
    GapsAreExact(arrivals);
    GapsAreDated(arrivals);
    var g := After(arrivals).gaps[i];
    assert MaximalRun(g, Received(arrivals));
    assert Holds(g, g.from);
  }

  /**
   * What is reported of a key: the least number that has been missing since before `since`, that is, a greater one came
   * before then; or -1, if there is no such number.
   */
  lemma FirstIsLeastOverdue(arrivals: seq<Arrival>, since: int, min: int, m: int)
    requires IsFirst(After(arrivals).gaps, since, min)
    ensures min == -1 || (IsMissing(arrivals, min) && FirstAbove(arrivals, min).value < since)
    ensures IsMissing(arrivals, m) && FirstAbove(arrivals, m).value < since ==> 0 <= min <= m
  {
    var gaps := After(arrivals).gaps;
    if min != -1 {
      var i :| 0 <= i < |gaps| && gaps[i].from == min && gaps[i].timestamp < since;
      StartIsMissing(arrivals, i);
    }
    if IsMissing(arrivals, m) && FirstAbove(arrivals, m).value < since {
      var i := MissingIsHeld(arrivals, m);
      StartIsMissing(arrivals, i);
    }
  }

  /** The keys visited, each with its first old gap if it has any, in the order of the visit. */
  ghost predicate Firsts<K>(all: map<K, Gaps>, since: int, result: seq<(K, int)>, order: seq<K>) {
    && (forall r :: r in result ==> r.0 in all && r.0 in order && r.1 >= 0 && IsFirst(all[r.0].gaps, since, r.1))
    && (forall i, j :: 0 <= i < j < |result| ==> result[i].0 != result[j].0)
    && forall k :: k in order && k in all ==> IsFirst(all[k].gaps, since, -1) || exists min :: (k, min) in result
  }

  lemma FirstsSnoc<K>(all: map<K, Gaps>, since: int, result: seq<(K, int)>, order: seq<K>, key: K, min: int)
    requires Firsts(all, since, result, order) && key in all && key !in order
    requires IsFirst(all[key].gaps, since, min) && min >= -1
    ensures Firsts(all, since, if min > -1 then result + [(key, min)] else result, order + [key])
  {
    var result' := if min > -1 then result + [(key, min)] else result;
    forall k | k in order + [key] && k in all
      ensures IsFirst(all[k].gaps, since, -1) || exists min :: (k, min) in result'
    {
      if k != key && !IsFirst(all[k].gaps, since, -1) {
        var m :| (k, m) in result;
        assert (k, m) in result';
      } else if min > -1 && k == key {
        assert result'[|result|] == (key, min);
      }
    }
  }

  /** What the listed keys add to the total of a visit of all keys. */
  function TotalOf<K>(all: map<K, Gaps>, order: seq<K>): int
    requires forall k :: k in order ==> k in all
  {
    if order == [] then 0 else TotalOf(all, order[..|order| - 1]) + Total(all[order[|order| - 1]].gaps)
  }

  /** The gaps of all keys, as the program keeps them. */
  class Tracker<Key(==)> {
    var allGaps: map<Key, Gaps>

    constructor ()
      ensures allGaps == map[]
    {
      allGaps := map[];
    }

    function GapsOf(key: Key): Gaps
      reads this
    {
      if key in allGaps then allGaps[key] else NONE
    }

    method GetGapForNumber(gaps: seq<Gap>, number: int) returns (place: Option<nat>)
      ensures place == Find(gaps, number)
    {
      for i := 0 to |gaps|
        invariant Find(gaps[..i], number) == None
      {
        assert gaps[..i + 1][..i] == gaps[..i];
        if gaps[i].from <= number <= gaps[i].to {
          FindInPrefix(gaps, i + 1, number);
          return Some(i);
        }
      }
      assert gaps[..|gaps|] == gaps;
      return None;
    }

    method CheckNextNumber(key: Key, number: int, now: int) returns (duplicate: bool)
      modifies this
      ensures (GapsOf(key), duplicate) == Check(old(GapsOf(key)), number, now)
      ensures allGaps == old(allGaps)[key := GapsOf(key)]
    {
      duplicate := false;
      var current := NONE;
      if key in allGaps { current := allGaps[key]; }
      if current.expected == number {
        current := current.(expected := current.expected + 1);
      } else if number > current.expected {
        var gap := Gap(current.expected, number - 1, now);
        current := Gaps(number + 1, current.gaps + [gap]);
      } else {
        var place := GetGapForNumber(current.gaps, number);
        if place.Some? {
          var i := place.value;
          var gap := current.gaps[i];
          if number == gap.from && number == gap.to {
            current := current.(gaps := current.gaps[..i] + current.gaps[i + 1..]);
          } else if number == gap.from {
            current := current.(gaps := current.gaps[i := gap.(from := gap.from + 1)]);
          } else if number == gap.to {
            current := current.(gaps := current.gaps[i := gap.(to := gap.to - 1)]);
          } else {
            var newGap := Gap(number + 1, gap.to, gap.timestamp);
            current := current.(gaps := current.gaps[i := gap.(to := number - 1)] + [newGap]);
          }
        } else {
          duplicate := true;
        }
      }
      allGaps := allGaps[key := current];
    }

    method FirstGap(gaps: seq<Gap>, since: int) returns (min: int, total: int)
      requires forall i :: 0 <= i < |gaps| ==> gaps[i].from >= 0
      ensures IsFirst(gaps, since, min) && min >= -1 && total == Total(gaps)
    {
      min, total := -1, 0;
      for j := 0 to |gaps|
        invariant IsFirst(gaps[..j], since, min) && min >= -1 && total == Total(gaps[..j])
      {
        var gap := gaps[j];
        ghost var before := min;
        if gap.from < min || min == -1 {
          if gap.timestamp < since { min := gap.from; }
        }
        FirstStep(gaps, j, since, before, min);
        total := total + (gap.to - gap.from);
      }
      assert gaps[..|gaps|] == gaps;
    }

    /** Returns the order in which the map was visited. */
    method GetFirstGaps(since: int) returns (total: int, result: seq<(Key, int)>, order: seq<Key>)
      requires forall k, i :: k in allGaps && 0 <= i < |allGaps[k].gaps| ==> allGaps[k].gaps[i].from >= 0
      ensures forall k :: k in order <==> k in allGaps
      ensures |order| == |allGaps| && total == TotalOf(allGaps, order)
      ensures Firsts(allGaps, since, result, order)
    {
      total, result, order := 0, [], [];
      var todo := allGaps.Keys;
      while todo != {}
        invariant todo <= allGaps.Keys && |order| + |todo| == |allGaps|
        invariant forall k :: k in order <==> k in allGaps && k !in todo
        invariant total == TotalOf(allGaps, order)
        invariant Firsts(allGaps, since, result, order)
        decreases todo
      {
        var key :| key in todo;
        var min, length := FirstGap(allGaps[key].gaps, since);
        FirstsSnoc(allGaps, since, result, order, key, min);
        total := total + length;
        if min > -1 {
          result := result + [(key, min)];
        }
        assert (order + [key])[..|order|] == order;
        order := order + [key];
        todo := todo - {key};
      }
    }
  }

  lemma {:induction false} FindInPrefix(gaps: seq<Gap>, k: nat, n: int)
    requires k <= |gaps| && Find(gaps[..k], n).Some?
    ensures Find(gaps, n) == Find(gaps[..k], n)
  {
    if k < |gaps| {
      assert gaps[..|gaps| - 1][..k] == gaps[..k];
      FindInPrefix(gaps[..|gaps| - 1], k, n);
    } else {
      assert gaps[..k] == gaps;
    }
  }

  lemma FirstSnoc(gaps: seq<Gap>, g: Gap, since: int, before: int, min: int)
    requires IsFirst(gaps, since, before) && g.from >= 0
    requires min == if (g.from < before || before == -1) && g.timestamp < since then g.from else before
    ensures IsFirst(gaps + [g], since, min)
  {
    var all := gaps + [g];
    assert all[|gaps|] == g;
    assert forall i :: 0 <= i < |gaps| ==> all[i] == gaps[i];
  }

  lemma FirstStep(gaps: seq<Gap>, j: nat, since: int, before: int, min: int)
    requires j < |gaps| && IsFirst(gaps[..j], since, before) && gaps[j].from >= 0
    requires min == if (gaps[j].from < before || before == -1) && gaps[j].timestamp < since then gaps[j].from else before
    ensures IsFirst(gaps[..j + 1], since, min)
    ensures Total(gaps[..j + 1]) == Total(gaps[..j]) + (gaps[j].to - gaps[j].from)
  {
    FirstSnoc(gaps[..j], gaps[j], since, before, min);
    assert gaps[..j + 1] == gaps[..j] + [gaps[j]];
    assert gaps[..j + 1][..j] == gaps[..j];
  }
}

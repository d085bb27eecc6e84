/**
 * From missing offsets to resent records: the merge of src/create/create.go (writeResults) and the filter of
 * src/resend/resend.go.
 */
module Recovery {
  import opened Bytes
  import opened Options
  import opened Text
  import opened GapState

  /** Offsets travel as float64: integers up to 2^53 arrive as they are, greater ones as `round` makes of them. */
  const MAX_EXACT := 0x20_0000_0000_0000

  type Rounding = int -> int

  function Transported(round: Rounding, n: int): int {
    if -MAX_EXACT <= n <= MAX_EXACT then n else round(n)
  }

  /** One result: the gaps of a topic and partition, each [offset] or [from, to]. */
  datatype GapResult = GapResult(topic: Bytes, partition: int, windowMax: int, gaps: seq<seq<int>>)

  function AbsoluteGap(round: Rounding, r: Range, windowMin: int): (gap: seq<int>)
    ensures 1 <= |gap| <= 2
  {
    match r
    case One(n) => [Transported(round, n + windowMin)]
    case Span(a, b) => [Transported(round, a + windowMin), Transported(round, b + windowMin)]
  }

  function AbsoluteGaps(round: Rounding, gaps: seq<Range>, windowMin: int): seq<seq<int>> {
    if gaps == [] then []
    else AbsoluteGaps(round, gaps[..|gaps| - 1], windowMin) + [AbsoluteGap(round, gaps[|gaps| - 1], windowMin)]
  }

  function Merged(round: Rounding, windows: seq<Window>): seq<seq<int>> {
    if windows == [] then []
    else
      var w := windows[|windows| - 1];
      Merged(round, windows[..|windows| - 1]) + AbsoluteGaps(round, w.gaps, w.windowMin)
  }

  lemma AbsoluteGapsSnoc(round: Rounding, gaps: seq<Range>, r: Range, windowMin: int)
    ensures AbsoluteGaps(round, gaps + [r], windowMin)
            == AbsoluteGaps(round, gaps, windowMin) + [AbsoluteGap(round, r, windowMin)]
  {
    assert (gaps + [r])[..|gaps|] == gaps;
  }

  lemma MergedSnoc(round: Rounding, windows: seq<Window>, w: Window)
    ensures Merged(round, windows + [w]) == Merged(round, windows) + AbsoluteGaps(round, w.gaps, w.windowMin)
  {
    assert (windows + [w])[..|windows|] == windows;
  }

  /** The inner loop: the gaps of one window, behind those so far. */
  method AppendGaps(round: Rounding, gaps: seq<Range>, windowMin: int, before: seq<seq<int>>)
    returns (absoluteGaps: seq<seq<int>>)
    ensures absoluteGaps == before + AbsoluteGaps(round, gaps, windowMin)
  {
    absoluteGaps := before;
    ghost var done: seq<Range> := [];
    for j := 0 to |gaps|
      invariant |done| == j && forall k :: 0 <= k < j ==> done[k] == gaps[k]
      invariant absoluteGaps == before + AbsoluteGaps(round, done, windowMin)
    {
      AbsoluteGapsSnoc(round, done, gaps[j], windowMin);
      done := done + [gaps[j]];
      absoluteGaps := absoluteGaps + [AbsoluteGap(round, gaps[j], windowMin)];
    }
    assert done == gaps;
  }

  /** The outer loop: windows in order, relative gaps turned into absolute ones. */
  method MergeGaps(round: Rounding, windows: seq<Window>) returns (absoluteGaps: seq<seq<int>>)
    ensures absoluteGaps == Merged(round, windows)
  {
    absoluteGaps := [];
    ghost var done: seq<Window> := [];
    for i := 0 to |windows|
      invariant |done| == i && forall k :: 0 <= k < i ==> done[k] == windows[k]
      invariant absoluteGaps == Merged(round, done)
    {
      MergedSnoc(round, done, windows[i]);
      done := done + [windows[i]];
      absoluteGaps := AppendGaps(round, windows[i].gaps, windows[i].windowMin, absoluteGaps);
    }
    assert done == windows;
  }

  // Grouping

  function GroupKey(w: Window): Bytes {
    w.topic + [DASH] + Itoa(w.partition)
  }

  lemma GroupKeyInjective(w: Window, x: Window)
    requires 0 <= w.partition <= MAX_INT64 && 0 <= x.partition <= MAX_INT64 && GroupKey(w) == GroupKey(x)
    ensures w.topic == x.topic && w.partition == x.partition
  {
    ItoaHasNoSeparator(w.partition, DASH);
    ItoaHasNoSeparator(x.partition, DASH);
    LastSeparator(w.topic, Itoa(w.partition), x.topic, Itoa(x.partition), DASH);
    ItoaInjective(w.partition, x.partition);
  }

  function Members(windows: seq<Window>, key: Bytes): seq<Window> {
    if windows == [] then []
    else
      var w, rest := windows[|windows| - 1], Members(windows[..|windows| - 1], key);
      if GroupKey(w) == key then rest + [w] else rest
  }

  /** The groups in the order in which they are first met. */
  function GroupOrder(windows: seq<Window>): seq<Bytes> {
    if windows == [] then []
    else
      var key, rest := GroupKey(windows[|windows| - 1]), GroupOrder(windows[..|windows| - 1]);
      if key in rest then rest else rest + [key]
  }

  /** sort.Slice by windowMin. */
  function Insert(sorted: seq<Window>, w: Window): (r: seq<Window>)
    ensures r != []
  {
    if sorted == [] || sorted[|sorted| - 1].windowMin <= w.windowMin then sorted + [w]
    else Insert(sorted[..|sorted| - 1], w) + [sorted[|sorted| - 1]]
  }

  function Sorted(windows: seq<Window>): (r: seq<Window>)
    ensures windows != [] ==> r != []
  {
    if windows == [] then [] else Insert(Sorted(windows[..|windows| - 1]), windows[|windows| - 1])
  }

  predicate Ordered(windows: seq<Window>) {
    forall i, j :: 0 <= i < j < |windows| ==> windows[i].windowMin <= windows[j].windowMin
  }

  lemma {:induction false} MemberIff(windows: seq<Window>, key: Bytes, w: Window)
    ensures w in Members(windows, key) <==> w in windows && GroupKey(w) == key
  {
    if windows != [] {
      MemberIff(windows[..|windows| - 1], key, w);
      assert windows == windows[..|windows| - 1] + [windows[|windows| - 1]];
    }
  }

  lemma {:induction false} InOrderIff(windows: seq<Window>, key: Bytes)
    ensures key in GroupOrder(windows) <==> Members(windows, key) != []
  {
    if windows != [] { InOrderIff(windows[..|windows| - 1], key); }
  }

  lemma {:induction false} InInsertIff(sorted: seq<Window>, w: Window, x: Window)
    ensures x in Insert(sorted, w) <==> x == w || x in sorted
  {
    if sorted != [] {
      InInsertIff(sorted[..|sorted| - 1], w, x);
      assert sorted == sorted[..|sorted| - 1] + [sorted[|sorted| - 1]];
    }
  }

  lemma {:induction false} InSortedIff(windows: seq<Window>, x: Window)
    ensures x in Sorted(windows) <==> x in windows
  {
    if windows != [] {
      InSortedIff(windows[..|windows| - 1], x);
      InInsertIff(Sorted(windows[..|windows| - 1]), windows[|windows| - 1], x);
      assert windows == windows[..|windows| - 1] + [windows[|windows| - 1]];
    }
  }

  lemma {:induction false} InsertOrdered(sorted: seq<Window>, w: Window)
    requires Ordered(sorted)
    ensures Ordered(Insert(sorted, w))
  {
    if sorted != [] && sorted[|sorted| - 1].windowMin > w.windowMin {
      var init, last := sorted[..|sorted| - 1], sorted[|sorted| - 1];
      InsertOrdered(init, w);
      forall i | 0 <= i < |Insert(init, w)| ensures Insert(init, w)[i].windowMin <= last.windowMin {
        InInsertIff(init, w, Insert(init, w)[i]);
      }
    }
  }

  lemma {:induction false} SortedOrdered(windows: seq<Window>)
    ensures Ordered(Sorted(windows))
  {
    if windows != [] {
      SortedOrdered(windows[..|windows| - 1]);
      InsertOrdered(Sorted(windows[..|windows| - 1]), windows[|windows| - 1]);
    }
  }

  /** The result of one group, windows in ascending order; in "first" mode only the first gap is kept. */
  function ResultOf(round: Rounding, sorted: seq<Window>, first: bool): GapResult {
    var gaps := Merged(round, sorted);
    if sorted == [] then GapResult([], 0, 0, [])
    else GapResult(sorted[0].topic, sorted[0].partition, sorted[|sorted| - 1].windowMax,
              if first && gaps != [] then gaps[..1] else gaps)
  }

  /** The result of the group with a key. */
  function GroupResult(round: Rounding, windows: seq<Window>, key: Bytes, first: bool): GapResult {
    ResultOf(round, Sorted(Members(windows, key)), first)
  }

  /** The results written for a list of live windows. */
  function Results(round: Rounding, windows: seq<Window>, first: bool): seq<GapResult> {
    var order := GroupOrder(windows);
    seq(|order|, i requires 0 <= i < |order| => GroupResult(round, windows, order[i], first))
  }

  lemma GroupSnoc(seen: seq<Window>, w: Window, k: Bytes)
    ensures Members(seen + [w], k) == if GroupKey(w) == k then Members(seen, k) + [w] else Members(seen, k)
    ensures GroupOrder(seen + [w])
            == if Members(seen, GroupKey(w)) != [] then GroupOrder(seen) else GroupOrder(seen) + [GroupKey(w)]
  {
    assert (seen + [w])[..|seen|] == seen;
    InOrderIff(seen, GroupKey(w));
  }

  /** The groups so far: the members of every key met, and of no other. */
  predicate Grouped(grouped: map<Bytes, seq<Window>>, seen: seq<Window>, k: Bytes) {
    if k in grouped then grouped[k] == Members(seen, k) && grouped[k] != [] else Members(seen, k) == []
  }

  /** The map after one more window. */
  function AddToGroup(grouped: map<Bytes, seq<Window>>, key: Bytes, w: Window): map<Bytes, seq<Window>> {
    grouped[key := (if key in grouped then grouped[key] else []) + [w]]
  }

  lemma GroupedSnoc(grouped: map<Bytes, seq<Window>>, seen: seq<Window>, key: Bytes, w: Window, k: Bytes)
    requires Grouped(grouped, seen, k) && Grouped(grouped, seen, key) && key == GroupKey(w)
    ensures Grouped(AddToGroup(grouped, key, w), seen + [w], k)
  {
    GroupSnoc(seen, w, k);
  }

  method AddWindow(grouped: map<Bytes, seq<Window>>, groupOrder: seq<Bytes>, key: Bytes, w: Window)
    returns (grouped': map<Bytes, seq<Window>>, groupOrder': seq<Bytes>)
    ensures grouped' == AddToGroup(grouped, key, w)
    ensures groupOrder' == if key in grouped then groupOrder else groupOrder + [key]
  {
    grouped', groupOrder' := grouped, groupOrder;
    if key !in grouped {
      groupOrder' := groupOrder + [key];
      grouped' := grouped[key := []];
    }
    grouped' := grouped'[key := grouped'[key] + [w]];
  }

  /** The groups of the windows seen, and their order. */
  ghost predicate AllGrouped(grouped: map<Bytes, seq<Window>>, groupOrder: seq<Bytes>, seen: seq<Window>) {
    groupOrder == GroupOrder(seen) && forall k :: Grouped(grouped, seen, k)
  }

  lemma AllGroupedSnoc(grouped: map<Bytes, seq<Window>>, groupOrder: seq<Bytes>, seen: seq<Window>, key: Bytes, w: Window)
    requires AllGrouped(grouped, groupOrder, seen) && key == GroupKey(w)
    ensures AllGrouped(AddToGroup(grouped, key, w), if key in grouped then groupOrder else groupOrder + [key], seen + [w])
  {
    assert Grouped(grouped, seen, key);
    GroupSnoc(seen, w, key);
    forall k ensures Grouped(AddToGroup(grouped, key, w), seen + [w], k) {
      assert Grouped(grouped, seen, k);
      GroupedSnoc(grouped, seen, key, w, k);
    }
  }

  /** The grouping loop. */
  method GroupWindows(windows: seq<Window>) returns (grouped: map<Bytes, seq<Window>>, groupOrder: seq<Bytes>)
    ensures AllGrouped(grouped, groupOrder, windows)
  {
    grouped, groupOrder := map[], [];
    ghost var seen: seq<Window> := [];
    for i := 0 to |windows|
      invariant |seen| == i && forall j :: 0 <= j < i ==> seen[j] == windows[j]
      invariant AllGrouped(grouped, groupOrder, seen)
    {
      var w := windows[i];
      var key := GroupKey(w);
      AllGroupedSnoc(grouped, groupOrder, seen, key, w);
      grouped, groupOrder := AddWindow(grouped, groupOrder, key, w);
      seen := seen + [w];
    }
    assert seen == windows;
  }

  method WriteResult(round: Rounding, members: seq<Window>, first: bool) returns (result: GapResult)
    requires members != []
    ensures result == ResultOf(round, Sorted(members), first)
  {
    var sorted := Sorted(members);
    var absoluteGaps := MergeGaps(round, sorted);
    if first && |absoluteGaps| > 0 {
      absoluteGaps := absoluteGaps[..1];
    }
    return GapResult(sorted[0].topic, sorted[0].partition, sorted[|sorted| - 1].windowMax, absoluteGaps);
  }

  method WriteResults(round: Rounding, windows: seq<Window>, first: bool) returns (results: seq<GapResult>)
    ensures results == Results(round, windows, first)
  {
    var grouped, groupOrder := GroupWindows(windows);
    results := [];
    for i := 0 to |groupOrder|
      invariant |results| == i
      invariant forall k :: 0 <= k < i ==> results[k] == GroupResult(round, windows, groupOrder[k], first)
    {
      var key := groupOrder[i];
      InOrderIff(windows, key);
      assert Grouped(grouped, windows, key);
      var result := WriteResult(round, grouped[key], first);
      results := results + [result];
    }
  }

  // Resending

  /** Whether one gap holds an offset, for gaps of any length. */
  predicate GapHolds(gap: seq<int>, offset: int) {
    if |gap| > 1 then gap[0] <= offset <= gap[1] else |gap| == 1 && offset == gap[0]
  }

  predicate AnyHolds(gaps: seq<seq<int>>, offset: int) {
    exists i :: 0 <= i < |gaps| && GapHolds(gaps[i], offset)
  }

  predicate IsFor(r: GapResult, topic: Bytes, partition: int) {
    r.topic == topic && r.partition == partition
  }

  /** filter, type "all". */
  predicate PassesAll(results: seq<GapResult>, topic: Bytes, partition: int, offset: int) {
    exists i :: 0 <= i < |results| && IsFor(results[i], topic, partition) && AnyHolds(results[i].gaps, offset)
  }

  /** filter, type "first": the first result for the topic and partition decides. */
  predicate PassesFirst(results: seq<GapResult>, topic: Bytes, partition: int, offset: int) {
    if results == [] then false
    else if IsFor(results[0], topic, partition) then
      results[0].gaps != [] && results[0].gaps[0] != [] && offset >= results[0].gaps[0][0]
    else PassesFirst(results[1..], topic, partition, offset)
  }

  /** getStartOffsetForResult, types "first" and "all". */
  function StartOffset(r: GapResult): int {
    Start(r.gaps)
  }

  function Start(gaps: seq<seq<int>>): int {
    if gaps != [] && gaps[0] != [] then gaps[0][0] else 0
  }

  method FilterAll(results: seq<GapResult>, topic: Bytes, partition: int, offset: int) returns (send: bool)
    ensures send == PassesAll(results, topic, partition, offset)
  {
    for i := 0 to |results|
      invariant !exists k :: 0 <= k < i && IsFor(results[k], topic, partition) && AnyHolds(results[k].gaps, offset)
    {
      if results[i].topic == topic && results[i].partition == partition {
        var gaps := results[i].gaps;
        for j := 0 to |gaps|
          invariant !exists k :: 0 <= k < j && GapHolds(gaps[k], offset)
        {
          if |gaps[j]| > 1 {
            if offset >= gaps[j][0] && offset <= gaps[j][1] {
              assert GapHolds(gaps[j], offset) && AnyHolds(results[i].gaps, offset);
              return true;
            }
          } else if |gaps[j]| == 1 {
            if offset == gaps[j][0] {
              assert GapHolds(gaps[j], offset) && AnyHolds(results[i].gaps, offset);
              return true;
            }
          }
        }
      }
    }
    return false;
  }

  method FilterFirst(results: seq<GapResult>, topic: Bytes, partition: int, offset: int) returns (send: bool)
    ensures send == PassesFirst(results, topic, partition, offset)
  {
    for i := 0 to |results|
      invariant PassesFirst(results, topic, partition, offset) == PassesFirst(results[i..], topic, partition, offset)
    {
      if results[i].topic == topic && results[i].partition == partition {
        if |results[i].gaps| == 0 || |results[i].gaps[0]| == 0 { return false; }
        return offset >= results[i].gaps[0][0];
      }
      assert results[i..][1..] == results[i + 1..];
    }
    return false;
  }

  // Exactness

  /** The offset is missing in the window. */
  predicate Missing(w: Window, offset: int) {
    Covers(w.gaps, offset - w.windowMin)
  }

  /** float64 carries every integer up to 2^53. */
  predicate IsCarried(offset: int) {
    -9_007_199_254_740_992 <= offset <= 9_007_199_254_740_992
  }

  /** Every end of every gap is an offset that float64 carries. */
  predicate Exact(w: Window) {
    forall i :: 0 <= i < |w.gaps| ==> IsCarried(Low(w.gaps[i]) + w.windowMin) && IsCarried(High(w.gaps[i]) + w.windowMin)
  }

  lemma AnyHoldsConcat(a: seq<seq<int>>, b: seq<seq<int>>, offset: int)
    ensures AnyHolds(a + b, offset) <==> AnyHolds(a, offset) || AnyHolds(b, offset)
  {
    if AnyHolds(a, offset) {
      var i :| 0 <= i < |a| && GapHolds(a[i], offset);
      assert GapHolds((a + b)[i], offset);
    }
    if AnyHolds(b, offset) {
      var i :| 0 <= i < |b| && GapHolds(b[i], offset);
      assert GapHolds((a + b)[|a| + i], offset);
    }
  }

  lemma AnyHoldsSnoc(a: seq<seq<int>>, gap: seq<int>, offset: int)
    ensures AnyHolds(a + [gap], offset) <==> AnyHolds(a, offset) || GapHolds(gap, offset)
  {
    AnyHoldsConcat(a, [gap], offset);
    assert [gap][0] == gap;
  }

  lemma AbsoluteGapHolds(round: Rounding, r: Range, windowMin: int, offset: int)
    requires IsCarried(Low(r) + windowMin) && IsCarried(High(r) + windowMin)
    ensures GapHolds(AbsoluteGap(round, r, windowMin), offset) <==> Within(r, offset - windowMin)
  {
  }

  lemma {:induction false} AbsoluteIsMissing(round: Rounding, w: Window, n: nat, offset: int)
    requires Exact(w) && n <= |w.gaps|
    ensures AnyHolds(AbsoluteGaps(round, w.gaps[..n], w.windowMin), offset) <==> Covers(w.gaps[..n], offset - w.windowMin)
  {
    if n > 0 {
      AbsoluteIsMissing(round, w, n - 1, offset);
      var r := w.gaps[n - 1];
      assert w.gaps[..n][..n - 1] == w.gaps[..n - 1] && w.gaps[..n] == w.gaps[..n - 1] + [r];
      AnyHoldsSnoc(AbsoluteGaps(round, w.gaps[..n - 1], w.windowMin), AbsoluteGap(round, r, w.windowMin), offset);
      AbsoluteGapHolds(round, r, w.windowMin, offset);
      CoversSnoc(w.gaps[..n - 1], r, offset - w.windowMin);
    }
  }

  predicate SomeMissing(windows: seq<Window>, offset: int) {
    exists i :: 0 <= i < |windows| && Missing(windows[i], offset)
  }

  lemma SomeMissingSnoc(windows: seq<Window>, w: Window, offset: int)
    ensures SomeMissing(windows + [w], offset) <==> SomeMissing(windows, offset) || Missing(w, offset)
  {
    var all := windows + [w];
    assert all[|windows|] == w;
    if SomeMissing(windows, offset) {
      var i :| 0 <= i < |windows| && Missing(windows[i], offset);
      assert Missing(all[i], offset);
    }
  }

  predicate AllExact(windows: seq<Window>) {
    forall i :: 0 <= i < |windows| ==> Exact(windows[i])
  }

  lemma {:induction false} MergedIsMissing(round: Rounding, windows: seq<Window>, offset: int)
    requires AllExact(windows)
    ensures AnyHolds(Merged(round, windows), offset) <==> SomeMissing(windows, offset)
  {
    if windows != [] {
      var before, w := windows[..|windows| - 1], windows[|windows| - 1];
      assert windows == before + [w];
      MergedIsMissing(round, before, offset);
      AbsoluteIsMissing(round, w, |w.gaps|, offset);
      assert w.gaps[..|w.gaps|] == w.gaps;
      AnyHoldsConcat(Merged(round, before), AbsoluteGaps(round, w.gaps, w.windowMin), offset);
      SomeMissingSnoc(before, w, offset);
    }
  }

  /** Windows as Kafka has them: partitions and ends of gaps in range. */
  predicate Usable(windows: seq<Window>) {
    forall w :: w in windows ==> 0 <= w.partition <= MAX_INT64 && Exact(w)
  }

  /** The result of a group is for the topic and partition of each of its windows. */
  lemma GroupIsFor(round: Rounding, windows: seq<Window>, key: Bytes, first: bool, w: Window)
    requires Usable(windows) && w in Members(windows, key)
    ensures Members(windows, key) != [] && IsFor(GroupResult(round, windows, key, first), w.topic, w.partition)
  {
    var m := Members(windows, key);
    InSortedIff(m, Sorted(m)[0]);
    MemberIff(windows, key, Sorted(m)[0]);
    MemberIff(windows, key, w);
    GroupKeyInjective(w, Sorted(m)[0]);
  }

  /** The gaps of a group's result hold exactly the offsets missing in its windows. */
  lemma GroupHolds(round: Rounding, windows: seq<Window>, key: Bytes, offset: int) returns (found: Option<Window>)
    requires Usable(windows)
    ensures AnyHolds(Merged(round, Sorted(Members(windows, key))), offset) <==> found.Some?
    ensures match found
            case Some(w) => w in windows && GroupKey(w) == key && Missing(w, offset)
            case None => forall w :: w in windows && GroupKey(w) == key ==> !Missing(w, offset)
  {
    var sorted := Sorted(Members(windows, key));
    forall i | 0 <= i < |sorted| ensures Exact(sorted[i]) { InGroupIff(windows, key, sorted[i]); }
    MergedIsMissing(round, sorted, offset);
    if i :| 0 <= i < |sorted| && Missing(sorted[i], offset) {
      InGroupIff(windows, key, sorted[i]);
      found := Some(sorted[i]);
    } else {
      forall w | w in windows && GroupKey(w) == key ensures !Missing(w, offset) { InGroupIff(windows, key, w); }
      found := None;
    }
  }

  lemma InGroupIff(windows: seq<Window>, key: Bytes, w: Window)
    ensures w in Sorted(Members(windows, key)) <==> w in windows && GroupKey(w) == key
  {
    InSortedIff(Members(windows, key), w);
    MemberIff(windows, key, w);
  }

  /** In "all" mode, exactly the missing offsets of the live windows are resent. */
  lemma AllIsExact(round: Rounding, windows: seq<Window>, topic: Bytes, partition: int, offset: int)
    requires Usable(windows)
    ensures PassesAll(Results(round, windows, false), topic, partition, offset)
            <==> exists w :: w in windows && w.topic == topic && w.partition == partition && Missing(w, offset)
  {
    var order, results := GroupOrder(windows), Results(round, windows, false);
    if PassesAll(results, topic, partition, offset) {
      var i :| 0 <= i < |results| && IsFor(results[i], topic, partition) && AnyHolds(results[i].gaps, offset);
      var found := GroupHolds(round, windows, order[i], offset);
      MemberIff(windows, order[i], found.value);
      GroupIsFor(round, windows, order[i], false, found.value);
    }
    if w :| w in windows && w.topic == topic && w.partition == partition && Missing(w, offset) {
      InGroup(round, windows, w);
      var i :| 0 <= i < |order| && order[i] == GroupKey(w);
      GroupIsFor(round, windows, order[i], false, w);
      var found := GroupHolds(round, windows, order[i], offset);
      assert IsFor(results[i], topic, partition) && AnyHolds(results[i].gaps, offset);
    }
  }

  lemma InGroup(round: Rounding, windows: seq<Window>, w: Window)
    requires w in windows
    ensures w in Members(windows, GroupKey(w)) && GroupKey(w) in GroupOrder(windows)
  {
    MemberIff(windows, GroupKey(w), w);
    InOrderIff(windows, GroupKey(w));
  }

  // Where to start reading

  /** The least missing offset of a window with ascending gaps. */
  function FirstMissing(w: Window): int
    requires w.gaps != []
  {
    w.windowMin + Low(w.gaps[0])
  }

  lemma FirstMissingIsLeast(w: Window, offset: int)
    requires Separated(w.gaps) && Missing(w, offset)
    ensures w.gaps != [] && FirstMissing(w) <= offset && Missing(w, FirstMissing(w))
  {
    var i :| 0 <= i < |w.gaps| && Within(w.gaps[i], offset - w.windowMin);
    assert Proper(w.gaps[0]) && Within(w.gaps[0], Low(w.gaps[0]));
  }

  function AnyGaps(windows: seq<Window>): Option<Window> {
    if windows == [] then None
    else
      match AnyGaps(windows[..|windows| - 1])
      case Some(w) => Some(w)
      case None => if windows[|windows| - 1].gaps != [] then Some(windows[|windows| - 1]) else None
  }

  lemma {:induction false} AbsoluteGapsHead(round: Rounding, gaps: seq<Range>, windowMin: int)
    requires gaps != []
    ensures AbsoluteGaps(round, gaps, windowMin) != []
    ensures AbsoluteGaps(round, gaps, windowMin)[0] == AbsoluteGap(round, gaps[0], windowMin)
  {
    if |gaps| > 1 { AbsoluteGapsHead(round, gaps[..|gaps| - 1], windowMin); }
  }

  /** The merged gaps start with the first gap of the first window that has any. */
  lemma {:induction false} MergedHead(round: Rounding, windows: seq<Window>)
    requires AllExact(windows)
    ensures match AnyGaps(windows)
            case None => Merged(round, windows) == []
            case Some(w) => w in windows && w.gaps != [] && Merged(round, windows) != []
                            && Merged(round, windows)[0] != [] && Start(Merged(round, windows)) == FirstMissing(w)
  {
    if windows != [] {
      var before, w := windows[..|windows| - 1], windows[|windows| - 1];
      MergedHead(round, before);
      assert windows == before + [w];
      assert Exact(windows[|before|]);
      if w.gaps != [] { AbsoluteGapsHead(round, w.gaps, w.windowMin); }
    }
  }

  predicate AllSeparated(windows: seq<Window>) {
    forall i :: 0 <= i < |windows| ==> Separated(windows[i].gaps)
  }

  predicate StartsLeast(windows: seq<Window>) {
    AnyGaps(windows).Some? && AnyGaps(windows).value.gaps != []
    && forall i :: 0 <= i < |windows| && windows[i].gaps != [] ==> FirstMissing(AnyGaps(windows).value) <= FirstMissing(windows[i])
  }

  /**
   * Reading from the first merged gap skips no missing offset exactly when the first window with gaps has the
   * least first missing offset.
   */
  lemma StartSkipsNoneIff(round: Rounding, windows: seq<Window>)
    requires AllExact(windows) && AllSeparated(windows) && Merged(round, windows) != []
    ensures (forall offset :: SomeMissing(windows, offset) ==> Start(Merged(round, windows)) <= offset)
            <==> StartsLeast(windows)
  {
    MergedHead(round, windows);
    if StartsLeast(windows) {
      forall offset | SomeMissing(windows, offset) ensures Start(Merged(round, windows)) <= offset {
        var i :| 0 <= i < |windows| && Missing(windows[i], offset);
        FirstMissingIsLeast(windows[i], offset);
      }
    } else {
      var i :| 0 <= i < |windows| && windows[i].gaps != []
               && FirstMissing(AnyGaps(windows).value) > FirstMissing(windows[i]);
      assert Proper(windows[i].gaps[0]) && Within(windows[i].gaps[0], Low(windows[i].gaps[0]));
      assert Missing(windows[i], FirstMissing(windows[i])) && SomeMissing(windows, FirstMissing(windows[i]));
    }
  }

  /** Two overlapping windows of one partition: the start offset skips a missing offset that the filter would pass. */
  lemma OverlapSkips(round: Rounding, topic: Bytes)
    ensures var a := Window(topic, 0, 0, 10, [One(5)], false);
            var b := Window(topic, 0, 3, 12, [One(0)], false);
            PassesAll(Results(round, [a, b], false), topic, 0, 3)
            && SomeMissing([a, b], 3) && Merged(round, [a, b]) != [] && Start(Merged(round, [a, b])) == 5
  {
    var a := Window(topic, 0, 0, 10, [One(5)], false);
    var b := Window(topic, 0, 3, 12, [One(0)], false);
    assert Within(b.gaps[0], 0) && Missing([a, b][1], 3);
    AllIsExact(round, [a, b], topic, 0, 3);
    assert [a, b][..1] == [a];
    assert AnyGaps([a]) == Some(a);
    MergedHead(round, [a, b]);
  }

  /** A window whose gaps lie inside it. */
  predicate Inside(w: Window) {
    Separated(w.gaps) && (w.gaps != [] ==> 0 <= Low(w.gaps[0]) && FirstMissing(w) <= w.windowMax)
  }

  predicate Apart(w: Window, x: Window) {
    w == x || w.windowMax < x.windowMin || x.windowMax < w.windowMin
  }

  /** Windows of one partition that do not overlap. */
  predicate Tidy(windows: seq<Window>, key: Bytes) {
    && (forall w :: w in windows && GroupKey(w) == key ==> Inside(w))
    && forall w, x :: w in windows && x in windows && GroupKey(w) == key && GroupKey(x) == key ==> Apart(w, x)
  }

  lemma {:induction false} AnyGapsIsEarlier(windows: seq<Window>, i: nat) returns (j: nat)
    requires i < |windows| && windows[i].gaps != []
    ensures AnyGaps(windows).Some? && j <= i && windows[j] == AnyGaps(windows).value && windows[j].gaps != []
  {
    var n := |windows| - 1;
    if i < n {
      j := AnyGapsIsEarlier(windows[..n], i);
    } else if k :| 0 <= k < n && windows[k].gaps != [] {
      j := AnyGapsIsEarlier(windows[..n], k);
    } else {
      NoGaps(windows[..n]);
      j := n;
    }
  }

  lemma {:induction false} NoGaps(windows: seq<Window>)
    requires forall k :: 0 <= k < |windows| ==> windows[k].gaps == []
    ensures AnyGaps(windows) == None
  {
    if windows != [] { NoGaps(windows[..|windows| - 1]); }
  }

  /** An ordered list of such windows. */
  predicate TidyList(sorted: seq<Window>) {
    Ordered(sorted) && (forall i :: 0 <= i < |sorted| ==> Inside(sorted[i]))
    && forall i, j :: 0 <= i < j < |sorted| ==> Apart(sorted[i], sorted[j])
  }

  lemma TidyInOrder(sorted: seq<Window>, i: nat, j: nat)
    requires TidyList(sorted) && i <= j < |sorted| && sorted[i].gaps != [] && sorted[j].gaps != []
    ensures FirstMissing(sorted[i]) <= FirstMissing(sorted[j])
  {
    if i < j { assert Apart(sorted[i], sorted[j]) && Inside(sorted[i]) && Inside(sorted[j]); }
  }

  lemma TidyStartsLeast(sorted: seq<Window>, k: nat)
    requires TidyList(sorted) && k < |sorted| && sorted[k].gaps != []
    ensures StartsLeast(sorted)
  {
    var j := AnyGapsIsEarlier(sorted, k);
    forall i | 0 <= i < |sorted| && sorted[i].gaps != [] ensures FirstMissing(AnyGaps(sorted).value) <= FirstMissing(sorted[i]) {
      var l := AnyGapsIsEarlier(sorted, i);
      TidyInOrder(sorted, l, i);
    }
  }

  lemma TidyStart(round: Rounding, sorted: seq<Window>, k: nat, offset: int)
    requires TidyList(sorted) && AllExact(sorted) && k < |sorted| && Missing(sorted[k], offset)
    ensures Merged(round, sorted) != [] && Merged(round, sorted)[0] != [] && Start(Merged(round, sorted)) <= offset
  {
    FirstMissingIsLeast(sorted[k], offset);
    TidyStartsLeast(sorted, k);
    MergedHead(round, sorted);
  }

  lemma GroupIsTidy(windows: seq<Window>, key: Bytes)
    requires Usable(windows) && Tidy(windows, key)
    ensures TidyList(Sorted(Members(windows, key))) && AllExact(Sorted(Members(windows, key)))
  {
    var sorted := Sorted(Members(windows, key));
    SortedOrdered(Members(windows, key));
    forall i | 0 <= i < |sorted| ensures Inside(sorted[i]) && Exact(sorted[i]) { InGroupIff(windows, key, sorted[i]); }
    forall i, j | 0 <= i < j < |sorted| ensures Apart(sorted[i], sorted[j]) {
      InGroupIff(windows, key, sorted[i]);
      InGroupIff(windows, key, sorted[j]);
    }
  }

  /** The first gap of a group's result, in either mode. */
  lemma GroupStart(round: Rounding, windows: seq<Window>, key: Bytes, first: bool, w: Window, offset: int)
    requires Usable(windows) && Tidy(windows, key) && w in windows && GroupKey(w) == key && Missing(w, offset)
    ensures var r := GroupResult(round, windows, key, first);
            r.gaps != [] && r.gaps[0] != [] && StartOffset(r) <= offset
  {
    var sorted := Sorted(Members(windows, key));
    GroupIsTidy(windows, key);
    InGroupIff(windows, key, w);
    var k :| 0 <= k < |sorted| && sorted[k] == w;
    TidyStart(round, sorted, k, offset);
  }

  lemma {:induction false} FirstDecides(results: seq<GapResult>, topic: Bytes, partition: int, offset: int, r: GapResult, i: nat)
    requires i < |results| && IsFor(results[i], topic, partition)
    requires forall k :: 0 <= k < |results| && IsFor(results[k], topic, partition) ==> results[k] == r
    ensures PassesFirst(results, topic, partition, offset)
            == (r.gaps != [] && r.gaps[0] != [] && offset >= r.gaps[0][0])
  {
    if !IsFor(results[0], topic, partition) {
      FirstDecides(results[1..], topic, partition, offset, r, i - 1);
    }
  }

  lemma SameResult(round: Rounding, windows: seq<Window>, first: bool, w: Window, k: nat)
    requires Usable(windows) && w in windows && k < |GroupOrder(windows)|
    requires IsFor(Results(round, windows, first)[k], w.topic, w.partition)
    ensures Results(round, windows, first)[k] == GroupResult(round, windows, GroupKey(w), first)
  {
    var key := GroupOrder(windows)[k];
    InOrderIff(windows, key);
    MemberIff(windows, key, Members(windows, key)[0]);
    GroupIsFor(round, windows, key, first, Members(windows, key)[0]);
    assert GroupKey(Members(windows, key)[0]) == GroupKey(w);
  }

  /**
   * Recovery is complete. For windows that do not overlap, every missing offset passes the filter in both modes,
   * and reading starts no later than it; what passes in "all" mode is exactly what is missing.
   */
  lemma RecoveryIsComplete(round: Rounding, windows: seq<Window>, w: Window, offset: int)
    requires Usable(windows) && Tidy(windows, GroupKey(w)) && w in windows && Missing(w, offset)
    ensures PassesAll(Results(round, windows, false), w.topic, w.partition, offset)
    ensures PassesFirst(Results(round, windows, true), w.topic, w.partition, offset)
    ensures forall first, k ::
              0 <= k < |Results(round, windows, first)| && IsFor(Results(round, windows, first)[k], w.topic, w.partition)
              ==> StartOffset(Results(round, windows, first)[k]) <= offset
  {
    AllIsExact(round, windows, w.topic, w.partition, offset);
    InGroup(round, windows, w);
    var key := GroupKey(w);
    forall first, k | 0 <= k < |Results(round, windows, first)|
      && IsFor(Results(round, windows, first)[k], w.topic, w.partition)
      ensures Results(round, windows, first)[k] == GroupResult(round, windows, key, first)
      ensures StartOffset(Results(round, windows, first)[k]) <= offset
    {
      SameResult(round, windows, first, w, k);
      GroupStart(round, windows, key, first, w, offset);
    }
    var i :| 0 <= i < |GroupOrder(windows)| && GroupOrder(windows)[i] == key;
    GroupIsFor(round, windows, key, true, w);
    GroupStart(round, windows, key, true, w, offset);
    FirstDecides(Results(round, windows, true), w.topic, w.partition, offset, GroupResult(round, windows, key, true), i);
  }
}

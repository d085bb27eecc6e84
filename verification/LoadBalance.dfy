/** Static load balancing: the filters of utils/loadbalance.py, read by src/filter/filter.go. */
module LoadBalance {
  import opened Bytes
  import opened Text

  const COMMA: byte := 44

  // The generator

  /** The number, counted from 1, that pipe i takes in its d-th place of a period. */
  function Slot(pipes: nat, i: nat, d: nat): (n: nat)
    requires pipes > 0
    ensures 1 <= n <= pipes
  {
    (i + d) % pipes + 1
  }

  /** The numbers of one pipe in the round that starts after `start`. */
  function Group(pipes: nat, depth: nat, start: int, i: nat): (g: seq<int>)
    requires pipes > 0
    ensures |g| == depth
  {
    seq(depth, d requires 0 <= d < depth => start + Slot(pipes, i, d))
  }

  function FilterOf(pipes: nat, redundancies: nat, i: nat): seq<int>
    requires pipes > 0
  {
    var n := redundancies + 1;
    Group(pipes, n, 0, i) + Group(pipes, n, pipes, i) + Group(pipes, n, 2 * pipes, i)
  }

  predicate Groups(groups: seq<seq<int>>, pipes: nat, depth: nat, start: int)
    requires pipes > 0
  {
    |groups| == pipes && forall i :: 0 <= i < pipes ==> groups[i] == Group(pipes, depth, start, i)
  }

  /** One round: `count` further numbers are appended to each group, from the heads of the groups behind it. */
  method GenGroups(pipes: nat, count: nat, start: int) returns (groups: seq<seq<int>>)
    requires pipes > 0
    ensures Groups(groups, pipes, count + 1, start)
  {
    groups := [];
    for i := start + 1 to start + pipes + 1
      invariant |groups| == i - (start + 1)
      invariant forall j :: 0 <= j < |groups| ==> groups[j] == [start + 1 + j]
    {
      groups := groups + [[i]];
    }
    for depth := 0 to count
      invariant Groups(groups, pipes, depth + 1, start)
    {
      for index := 0 to |groups|
        invariant |groups| == pipes
        invariant forall j :: 0 <= j < index ==> groups[j] == Group(pipes, depth + 2, start, j)
        invariant forall j :: index <= j < pipes ==> groups[j] == Group(pipes, depth + 1, start, j)
      {
        var i := (index + depth + 1) % |groups|;
        GroupHead(pipes, depth, start, i);
        var head := groups[i][0];
        GroupSnoc(pipes, depth + 1, start, index);
        groups := groups[index := groups[index] + [head]];
      }
    }
  }

  lemma GroupHead(pipes: nat, depth: nat, start: int, i: nat)
    requires i < pipes
    ensures Group(pipes, depth + 1, start, i)[0] == start + i + 1
    ensures Group(pipes, depth + 2, start, i)[0] == start + i + 1
  {
  }

  lemma GroupSnoc(pipes: nat, depth: nat, start: int, i: nat)
    requires pipes > 0
    ensures Group(pipes, depth + 1, start, i) == Group(pipes, depth, start, i) + [start + Slot(pipes, i, depth)]
  {
  }

  /** What a filter holds after some rounds. */
  function Rounds(pipes: nat, depth: nat, rounds: nat, i: nat): seq<int>
    requires pipes > 0
  {
    if rounds == 0 then [] else Rounds(pipes, depth, rounds - 1, i) + Group(pipes, depth, Base(rounds - 1, pipes), i)
  }

  /** Where a round starts. */
  function Base(round: nat, pipes: nat): nat {
    if round == 0 then 0 else Base(round - 1, pipes) + pipes
  }

  method AppendGroups(filters: seq<seq<int>>, groups: seq<seq<int>>) returns (r: seq<seq<int>>)
    requires |filters| == |groups|
    ensures |r| == |filters| && forall i :: 0 <= i < |r| ==> r[i] == filters[i] + groups[i]
  {
    r := filters;
    for i := 0 to |filters|
      invariant |r| == |filters|
      invariant forall j :: 0 <= j < i ==> r[j] == filters[j] + groups[j]
      invariant forall j :: i <= j < |r| ==> r[j] == filters[j]
    {
      r := r[i := r[i] + groups[i]];
    }
  }

  lemma Counts(pipes: nat, redundancies: nat)
    requires redundancies < pipes
    ensures (pipes - redundancies) % (pipes + 1) == pipes - redundancies
  {
  }

  method GenFilters(pipes: nat, redundancies: nat) returns (filters: seq<seq<int>>)
    requires redundancies < pipes
    ensures |filters| == pipes && forall i :: 0 <= i < pipes ==> filters[i] == FilterOf(pipes, redundancies, i)
  {
    var redundancys := (pipes - redundancies) % (pipes + 1);
    Counts(pipes, redundancies);
    var count := if pipes - redundancys < pipes then pipes - redundancys else pipes;
    filters := seq(pipes, _ => []);
    var groups: seq<seq<int>> := [];
    for round := 0 to 3
      invariant |filters| == pipes
      invariant if round == 0 then groups == [] else |groups| == pipes && groups[pipes - 1] != [] && groups[pipes - 1][0] == Base(round, pipes)
      invariant forall i :: 0 <= i < pipes ==> filters[i] == Rounds(pipes, redundancies + 1, round, i)
    {
      var groupStart := if groups == [] then 0 else groups[|groups| - 1][0];
      groups := GenGroups(pipes, count, groupStart);
      GroupHead(pipes, redundancies, groupStart, pipes - 1);
      filters := AppendGroups(filters, groups);
    }
    forall i | 0 <= i < pipes ensures filters[i] == FilterOf(pipes, redundancies, i) { ThreeRounds(pipes, redundancies, i); }
  }

  lemma ThreeRounds(pipes: nat, redundancies: nat, i: nat)
    requires pipes > 0
    ensures Rounds(pipes, redundancies + 1, 3, i) == FilterOf(pipes, redundancies, i)
  {
    var n := redundancies + 1;
    assert Base(1, pipes) == pipes && Base(2, pipes) == 2 * pipes;
    assert Rounds(pipes, n, 1, i) == Group(pipes, n, 0, i);
    assert Rounds(pipes, n, 2, i) == Group(pipes, n, 0, i) + Group(pipes, n, pipes, i);
  }

  // sorted, as prod_print prints a filter

  function Insert(s: seq<int>, x: int): seq<int> {
    if s == [] || s[|s| - 1] <= x then s + [x] else Insert(s[..|s| - 1], x) + [s[|s| - 1]]
  }

  function Sorted(s: seq<int>): (r: seq<int>) {
    if s == [] then [] else Insert(Sorted(s[..|s| - 1]), s[|s| - 1])
  }

  lemma {:induction false} InsertFacts(s: seq<int>, x: int, y: int)
    ensures |Insert(s, x)| == |s| + 1
    ensures y in Insert(s, x) <==> y == x || y in s
  {
    if s != [] {
      InsertFacts(s[..|s| - 1], x, y);
      assert s == s[..|s| - 1] + [s[|s| - 1]];
    }
  }

  lemma {:induction false} SortedFacts(s: seq<int>, y: int)
    ensures |Sorted(s)| == |s|
    ensures y in Sorted(s) <==> y in s
  {
    if s != [] {
      SortedFacts(s[..|s| - 1], y);
      InsertFacts(Sorted(s[..|s| - 1]), s[|s| - 1], y);
      assert s == s[..|s| - 1] + [s[|s| - 1]];
    }
  }

  predicate Ascends(s: seq<int>) {
    forall i, j :: 0 <= i < j < |s| ==> s[i] <= s[j]
  }

  lemma {:induction false} InsertAscends(s: seq<int>, x: int)
    requires Ascends(s)
    ensures Ascends(Insert(s, x))
  {
    if s != [] && s[|s| - 1] > x {
      var init, last := s[..|s| - 1], s[|s| - 1];
      InsertAscends(init, x);
      forall i | 0 <= i < |Insert(init, x)| ensures Insert(init, x)[i] <= last { InsertFacts(init, x, Insert(init, x)[i]); }
    }
  }

  lemma {:induction false} SortedAscends(s: seq<int>)
    ensures Ascends(Sorted(s))
  {
    if s != [] {
      SortedAscends(s[..|s| - 1]);
      InsertAscends(Sorted(s[..|s| - 1]), s[|s| - 1]);
    }
  }

  lemma {:induction false} InsertConcat(u: seq<int>, v: seq<int>, x: int)
    requires forall y :: y in u ==> y <= x
    ensures Insert(u + v, x) == u + Insert(v, x)
  {
    if v == [] {
      assert u + v == u && (u != [] ==> u[|u| - 1] in u);
    } else {
      var init, last := v[..|v| - 1], v[|v| - 1];
      assert (u + v)[..|u + v| - 1] == u + init;
      assert u + v + [x] == u + (v + [x]);
      InsertConcat(u, init, x);
    }
  }

  /** Sorting keeps a part in front whose numbers are all smaller. */
  lemma {:induction false} SortedConcat(a: seq<int>, b: seq<int>)
    requires forall x, y :: x in a && y in b ==> x <= y
    ensures Sorted(a + b) == Sorted(a) + Sorted(b)
  {
    if b == [] {
      assert a + b == a;
    } else {
      var init, last := b[..|b| - 1], b[|b| - 1];
      assert (a + b)[..|a + b| - 1] == a + init && (a + b)[|a + b| - 1] == last;
      assert forall y :: y in init ==> y in b;
      SortedConcat(a, init);
      forall y | y in Sorted(a) ensures y <= last {
        SortedFacts(a, y);
        assert last in b;
      }
      InsertConcat(Sorted(a), Sorted(init), last);
    }
  }

  function Shift(s: seq<int>, c: int): (r: seq<int>)
    ensures |r| == |s|
  {
    seq(|s|, i requires 0 <= i < |s| => s[i] + c)
  }

  lemma ShiftSnoc(s: seq<int>, x: int, c: int)
    ensures Shift(s + [x], c) == Shift(s, c) + [x + c]
  {
  }

  lemma {:induction false} InsertShift(s: seq<int>, x: int, c: int)
    ensures Insert(Shift(s, c), x + c) == Shift(Insert(s, x), c)
  {
    ShiftSnoc(s, x, c);
    if s != [] {
      var init, last := s[..|s| - 1], s[|s| - 1];
      assert s == init + [last];
      ShiftSnoc(init, last, c);
      assert Shift(s, c)[..|s| - 1] == Shift(init, c);
      InsertShift(init, x, c);
      ShiftSnoc(Insert(init, x), last, c);
    }
  }

  lemma SortedSnoc(s: seq<int>, x: int)
    ensures Sorted(s + [x]) == Insert(Sorted(s), x)
  {
    assert (s + [x])[..|s|] == s;
  }

  lemma SortedShiftSnoc(s: seq<int>, x: int, c: int)
    requires Sorted(Shift(s, c)) == Shift(Sorted(s), c)
    ensures Sorted(Shift(s + [x], c)) == Shift(Sorted(s + [x]), c)
  {
    ShiftSnoc(s, x, c);
    SortedSnoc(s, x);
    SortedSnoc(Shift(s, c), x + c);
    InsertShift(Sorted(s), x, c);
  }

  lemma {:induction false} SortedShift(s: seq<int>, c: int)
    ensures Sorted(Shift(s, c)) == Shift(Sorted(s), c)
  {
    if s == [] {
      assert Shift(s, c) == [];
    } else {
      SortedShift(s[..|s| - 1], c);
      SortedShiftSnoc(s[..|s| - 1], s[|s| - 1], c);
      assert s == s[..|s| - 1] + [s[|s| - 1]];
    }
  }

  // The reader

  datatype Filter = Filter(groups: seq<seq<int>>, k: int)

  /** What NewFilter does with a configuration: an error, process exit with a reason, a panic, or a filter. */
  datatype Loaded = NotDivisible | UnexpectedStart | SelfTestFailed | Panics | Loaded(filter: Filter)

  /** Go's %: the remainder has the sign of the dividend. */
  function GoMod(a: int, m: int): int
    requires m != 0
  {
    var n := if m < 0 then -m else m;
    if a >= 0 then a % n else -((-a) % n)
  }

  function PosMod(a: int, m: int): int
    requires m != 0
  {
    GoMod(GoMod(a, m) + m, m)
  }

  /** For a positive modulus it is the mathematical one, also for negative offsets. */
  lemma PosModIsModulo(a: int, m: int)
    requires m > 0
    ensures PosMod(a, m) == a % m
  {
    if a < 0 {
      var q, b := (-a) / m, (-a) % m;
      assert -a == m * q + b;
      assert PosMod(a, m) == (m - b) % m;
      ModShift(m - b, q + 1, m);
      assert m * (q + 1) == m * q + m;
    } else {
      ModShift(a % m, -1, m);
    }
  }

  lemma Multiples(d: int, m: int)
    requires m > 0
    ensures d > 0 ==> m * d >= m
    ensures d < 0 ==> m * d <= -m
  {
  }

  lemma ModUnique(a: int, m: int, q: int, r: int)
    requires m > 0 && 0 <= r < m && a == m * q + r
    ensures a % m == r
  {
    var d := a / m - q;
    assert a == m * (a / m) + a % m;
    assert m * d == m * (a / m) - m * q;
    Multiples(d, m);
  }

  lemma ModShift(x: int, j: int, m: int)
    requires m > 0
    ensures (x - m * j) % m == x % m
  {
    assert x == m * (x / m) + x % m;
    assert m * (x / m - j) == m * (x / m) - m * j;
    ModUnique(x - m * j, m, x / m - j, x % m);
  }

  predicate Accepts(first: seq<int>, k: int, number: int)
    requires k != 0
  {
    PosMod(number - 1, k) + 1 in first
  }

  predicate InGroups(groups: seq<seq<int>>, number: int) {
    exists i :: 0 <= i < |groups| && number in groups[i]
  }

  predicate SelfTest(groups: seq<seq<int>>, k: int)
    requires |groups| == 3 && groups[2] != [] && k != 0
  {
    forall i :: 1 <= i <= groups[2][|groups[2]| - 1] ==> (Accepts(groups[0], k, i) <==> InGroups(groups, i))
  }

  function Numbers(parts: seq<Bytes>): (n: seq<int>)
    ensures |n| == |parts|
  {
    seq(|parts|, i requires 0 <= i < |parts| => AtoiUnchecked(parts[i]))
  }

  function ThreeGroups(numbers: seq<int>): seq<seq<int>>
    requires |numbers| % 3 == 0
  {
    var n := |numbers| / 3;
    [numbers[..n], numbers[n..2 * n], numbers[2 * n..]]
  }

  /** The checks behind the groups. A period of 0 divides by zero in the first turn of the self test. */
  function LoadGroups(groups: seq<seq<int>>): Loaded
    requires |groups| == 3 && groups[0] != [] && groups[1] != [] && groups[2] != []
  {
    var k := groups[1][0] - groups[0][0];
    if groups[2][0] != groups[1][0] + k then UnexpectedStart
    else if k == 0 then if groups[2][|groups[2]| - 1] >= 1 then Panics else Loaded(Filter(groups, 0))
    else if SelfTest(groups, k) then Loaded(Filter(groups, k))
    else SelfTestFailed
  }

  /** What NewFilter must return. */
  function Load(config: Bytes): Loaded {
    var parts := Split(config, COMMA);
    if |parts| % 3 != 0 then NotDivisible else LoadGroups(ThreeGroups(Numbers(parts)))
  }

  method InFirst(first: seq<int>, pos: int) returns (found: bool)
    ensures found == (pos in first)
  {
    for i := 0 to |first|
      invariant pos !in first[..i]
    {
      if first[i] == pos { return true; }
    }
    return false;
  }

  /** Check; the caller must not use a filter with period 0. */
  method Check(f: Filter, number: int) returns (valid: bool)
    requires f.groups != [] && f.k != 0
    ensures valid == Accepts(f.groups[0], f.k, number)
  {
    var pos := PosMod(number - 1, f.k) + 1;
    valid := InFirst(f.groups[0], pos);
  }

  method InGroup(groups: seq<seq<int>>, number: int) returns (found: bool)
    ensures found == InGroups(groups, number)
  {
    for i := 0 to |groups|
      invariant forall j :: 0 <= j < i ==> number !in groups[j]
    {
      var here := InFirst(groups[i], number);
      if here { return true; }
    }
    return false;
  }

  method DoSelfTest(groups: seq<seq<int>>, k: int) returns (ok: bool)
    requires |groups| == 3 && groups[2] != [] && k != 0
    ensures ok == SelfTest(groups, k)
  {
    var largest := groups[2][|groups[2]| - 1];
    var i := 1;
    while i <= largest
      invariant i >= 1
      invariant forall j :: 1 <= j < i && j <= largest ==> (Accepts(groups[0], k, j) <==> InGroups(groups, j))
    {
      var valid := Check(Filter(groups, k), i);
      var isInGroups := InGroup(groups, i);
      if valid != isInGroups { return false; }
      i := i + 1;
    }
    return true;
  }

  method ParseGroup(parts: seq<Bytes>, from: nat, itemsPerGroup: nat) returns (group: seq<int>)
    requires from + itemsPerGroup <= |parts|
    ensures group == Numbers(parts)[from..from + itemsPerGroup]
  {
    var intArray := new int[itemsPerGroup];
    for i := 0 to itemsPerGroup
      invariant forall l :: 0 <= l < i ==> intArray[l] == AtoiUnchecked(parts[from + l])
    {
      intArray[i] := AtoiUnchecked(parts[from + i]);
    }
    group := intArray[..];
  }

  method ParseGroups(parts: seq<Bytes>) returns (groups: seq<seq<int>>)
    requires |parts| % 3 == 0
    ensures groups == ThreeGroups(Numbers(parts))
  {
    var itemsPerGroup := |parts| / 3;
    groups := [];
    for j := 0 to 3
      invariant groups == ThreeGroups(Numbers(parts))[..j]
    {
      var group := ParseGroup(parts, j * itemsPerGroup, itemsPerGroup);
      assert group == ThreeGroups(Numbers(parts))[j];
      groups := groups + [group];
    }
  }

  method NewFilter(config: Bytes) returns (r: Loaded)
    ensures r == Load(config)
  {
    var parts := Split(config, COMMA);
    if |parts| % 3 != 0 { return NotDivisible; }
    var groups := ParseGroups(parts);
    var k := groups[1][0] - groups[0][0];
    if groups[2][0] != groups[1][0] + k { return UnexpectedStart; }
    if k == 0 {
      if groups[2][|groups[2]| - 1] >= 1 { return Panics; }
      return Loaded(Filter(groups, 0));
    }
    var ok := DoSelfTest(groups, k);
    if !ok { return SelfTestFailed; }
    return Loaded(Filter(groups, k));
  }

  // Which configurations load

  /** Where a number lies in a period of k, counted from 1, or down from 1 if k is negative. */
  function PlaceOf(x: int, k: int): int
    requires k != 0
  {
    1 + if k > 0 then (x - 1) % k else -((1 - x) % -k)
  }

  /** Up to the last number, exactly those are listed whose place in the period is in the first third. */
  predicate AgreesWithPeriod(listed: seq<int>, k: int)
    requires k != 0 && listed != []
  {
    forall x :: 1 <= x <= listed[|listed| - 1] ==> (x in listed <==> PlaceOf(x, k) in listed[..|listed| / 3])
  }

  lemma PosModIsPlace(x: int, k: int)
    requires k != 0 && x >= 1
    ensures PosMod(x - 1, k) + 1 == PlaceOf(x, k)
  {
    if k > 0 { PosModIsModulo(x - 1, k); } else { NegativePlace(x - 1, -k); }
  }

  lemma NegativePlace(a: int, n: int)
    requires a >= 0 && n > 0
    ensures PosMod(a, -n) == -((-a) % n)
  {
    var q, r := a / n, a % n;
    assert a == n * q + r;
    NegatedRemainder(a, n, q, r);
    assert GoMod(a, -n) == r;
    if r == 0 { ModUnique(n, n, 1, 0); } else { ModUnique(n - r, n, 0, n - r); }
  }

  lemma NegatedRemainder(a: int, n: int, q: int, r: int)
    requires 0 <= r < n && a == n * q + r
    ensures (-a) % n == if r == 0 then 0 else n - r
  {
    assert n * (-q) == -(n * q) && n * (-q - 1) == -(n * q) - n;
    ModUnique(-a, n, if r == 0 then -q else -q - 1, if r == 0 then 0 else n - r);
  }

  lemma InThirds(listed: seq<int>, x: int)
    requires |listed| % 3 == 0
    ensures InGroups(ThreeGroups(listed), x) <==> x in listed
  {
    var n, groups := |listed| / 3, ThreeGroups(listed);
    assert InGroups(groups, x) <==> x in groups[0] || x in groups[1] || x in groups[2];
    assert listed == groups[0] + groups[1] + groups[2];
  }

  lemma SelfTestIff(listed: seq<int>, k: int)
    requires |listed| % 3 == 0 && listed != [] && k != 0
    ensures SelfTest(ThreeGroups(listed), k) <==> AgreesWithPeriod(listed, k)
  {
    forall x | x >= 1
      ensures Accepts(ThreeGroups(listed)[0], k, x) <==> PlaceOf(x, k) in listed[..|listed| / 3]
      ensures InGroups(ThreeGroups(listed), x) <==> x in listed
    {
      PosModIsPlace(x, k);
      InThirds(listed, x);
    }
  }

  /** By the numbers a configuration lists: what must become of it. */
  predicate LoadsAs(listed: seq<int>, n: nat, r: Loaded)
    requires |listed| == 3 * n && n > 0
  {
    var k := listed[n] - listed[0];
    if listed[2 * n] != listed[0] + 2 * k then r == UnexpectedStart
    else if k == 0 && listed[3 * n - 1] >= 1 then r == Panics
    else if k != 0 && !AgreesWithPeriod(listed, k) then r == SelfTestFailed
    else r.Loaded? && r.filter.k == k && r.filter.groups != [] && r.filter.groups[0] == listed[..n]
  }

  lemma ThirdsLoad(listed: seq<int>, n: nat)
    requires |listed| == 3 * n && n > 0
    ensures LoadsAs(listed, n, LoadGroups(ThreeGroups(listed)))
  {
    var groups := ThreeGroups(listed);
    assert groups[0] == listed[..n] && groups[1] == listed[n..2 * n] && groups[2] == listed[2 * n..];
    var k := groups[1][0] - groups[0][0];
    if k != 0 { SelfTestIff(listed, k); }
  }

  /**
   * A configuration loads exactly if the count of its numbers is a multiple of three, the thirds start at equal distances,
   * and the list agrees with that period. A period of 0 is noticed only if the last number is positive. The filter has
   * this period and the first third.
   */
  lemma LoadsIff(config: Bytes)
    ensures var listed := Numbers(Split(config, COMMA));
            var n := |listed| / 3;
            if |listed| == 3 * n then n > 0 && LoadsAs(listed, n, Load(config)) else Load(config) == NotDivisible
  {
    var listed := Numbers(Split(config, COMMA));
    if |listed| % 3 == 0 { ThirdsLoad(listed, |listed| / 3); }
  }

  // Generated filters, read back

  function Printed(numbers: seq<int>): (texts: seq<Bytes>)
    ensures |texts| == |numbers|
  {
    seq(|numbers|, i requires 0 <= i < |numbers| => Itoa(numbers[i]))
  }

  /** A line of prod_print. */
  function ConfigOf(filter: seq<int>): Bytes {
    Join(Printed(Sorted(filter)), 44)
  }

  lemma PrintedIsParsed(numbers: seq<int>)
    requires numbers != [] && forall i :: 0 <= i < |numbers| ==> MIN_INT64 <= numbers[i] <= MAX_INT64
    ensures Split(Join(Printed(numbers), COMMA), COMMA) == Printed(numbers)
    ensures Numbers(Printed(numbers)) == numbers
  {
    forall i | 0 <= i < |numbers| ensures COMMA !in Printed(numbers)[i] && AtoiUnchecked(Printed(numbers)[i]) == numbers[i] {
      ItoaHasNoSeparator(numbers[i], COMMA);
      AtoiItoa(numbers[i]);
    }
    SplitJoin(Printed(numbers), COMMA);
  }

  /** The sorted numbers of pipe i within the first period. */
  function First(pipes: nat, redundancies: nat, i: nat): seq<int>
    requires pipes > 0
  {
    Sorted(Group(pipes, redundancies + 1, 0, i))
  }

  lemma FirstFacts(pipes: nat, redundancies: nat, i: nat, x: int)
    requires pipes > 0
    ensures |First(pipes, redundancies, i)| == redundancies + 1
    ensures x in First(pipes, redundancies, i) <==> exists d :: 0 <= d <= redundancies && x == Slot(pipes, i, d)
    ensures x in First(pipes, redundancies, i) ==> 1 <= x <= pipes
  {
    var g := Group(pipes, redundancies + 1, 0, i);
    SortedFacts(g, x);
    if d :| 0 <= d <= redundancies && x == Slot(pipes, i, d) { assert g[d] == x; }
  }

  lemma SortedFilter(pipes: nat, redundancies: nat, i: nat)
    requires pipes > 0
    ensures var s := First(pipes, redundancies, i);
            Sorted(FilterOf(pipes, redundancies, i)) == s + Shift(s, pipes) + Shift(s, 2 * pipes)
  {
    var n := redundancies + 1;
    var a, b, c := Group(pipes, n, 0, i), Group(pipes, n, pipes, i), Group(pipes, n, 2 * pipes, i);
    assert b == Shift(a, pipes) && c == Shift(a, 2 * pipes);
    assert forall x :: x in a ==> 1 <= x <= pipes;
    assert forall x :: x in b ==> pipes < x <= 2 * pipes;
    assert forall x :: x in c ==> 2 * pipes < x;
    SortedConcat(a, b);
    SortedConcat(a + b, c);
    SortedShift(a, pipes);
    SortedShift(a, 2 * pipes);
  }

  function PipeGroups(pipes: nat, redundancies: nat, i: nat): seq<seq<int>>
    requires pipes > 0
  {
    var s := First(pipes, redundancies, i);
    [s, Shift(s, pipes), Shift(s, 2 * pipes)]
  }

  lemma InShift(s: seq<int>, c: int, x: int)
    ensures x in Shift(s, c) <==> x - c in s
  {
    if x - c in s {
      var i :| 0 <= i < |s| && s[i] == x - c;
      assert Shift(s, c)[i] == x;
    }
  }

  /** Where a number of the first three periods lies within its period. */
  lemma Position(x: int, round: int, pipes: nat)
    requires pipes > 0 && 0 <= round <= 2 && round * pipes < x <= (round + 1) * pipes
    ensures PosMod(x - 1, pipes) + 1 == x - round * pipes
  {
    PosModIsModulo(x - 1, pipes);
    ModUnique(x - 1, pipes, round, x - 1 - round * pipes);
  }

  lemma PipePassesSelfTest(pipes: nat, redundancies: nat, i: nat, x: int)
    requires pipes > 0 && 1 <= x <= 3 * pipes
    ensures Accepts(First(pipes, redundancies, i), pipes, x) <==> InGroups(PipeGroups(pipes, redundancies, i), x)
  {
    var s, groups := First(pipes, redundancies, i), PipeGroups(pipes, redundancies, i);
    assert InGroups(groups, x) <==> x in groups[0] || x in groups[1] || x in groups[2];
    InShift(s, pipes, x);
    InShift(s, 2 * pipes, x);
    FirstFacts(pipes, redundancies, i, x);
    FirstFacts(pipes, redundancies, i, x - pipes);
    FirstFacts(pipes, redundancies, i, x - 2 * pipes);
    Position(x, if x <= pipes then 0 else if x <= 2 * pipes then 1 else 2, pipes);
  }

  lemma PipeLoads(pipes: nat, redundancies: nat, i: nat)
    requires pipes > 0
    ensures LoadGroups(PipeGroups(pipes, redundancies, i)) == Loaded(Filter(PipeGroups(pipes, redundancies, i), pipes))
  {
    var s, groups := First(pipes, redundancies, i), PipeGroups(pipes, redundancies, i);
    FirstFacts(pipes, redundancies, i, s[|s| - 1]);
    FirstFacts(pipes, redundancies, i, s[0]);
    forall x | 1 <= x <= groups[2][|groups[2]| - 1] ensures Accepts(groups[0], pipes, x) <==> InGroups(groups, x) {
      PipePassesSelfTest(pipes, redundancies, i, x);
    }
  }

  lemma ThreeSlices(a: seq<int>, b: seq<int>, c: seq<int>)
    requires |a| == |b| == |c|
    ensures |a + b + c| % 3 == 0 && ThreeGroups(a + b + c) == [a, b, c]
  {
    var all := a + b + c;
    assert |all| == 3 * |a|;
    assert all[..|a|] == a && all[|a|..2 * |a|] == b && all[2 * |a|..] == c;
  }

  /** Every printed filter passes the group check and the self test, and repeats with the number of pipes. */
  lemma GeneratedLoads(pipes: nat, redundancies: nat, i: nat)
    requires redundancies < pipes && i < pipes && 3 * pipes <= MAX_INT64
    ensures Load(ConfigOf(FilterOf(pipes, redundancies, i)))
            == Loaded(Filter(PipeGroups(pipes, redundancies, i), pipes))
  {
    var s := First(pipes, redundancies, i);
    var a, b := Shift(s, pipes), Shift(s, 2 * pipes);
    SortedFilter(pipes, redundancies, i);
    forall j | 0 <= j < |s| ensures 1 <= s[j] <= pipes { FirstFacts(pipes, redundancies, i, s[j]); }
    FirstFacts(pipes, redundancies, i, 0);
    PrintedIsParsed(s + a + b);
    ThreeSlices(s, a, b);
    PipeLoads(pipes, redundancies, i);
  }

  // Coverage

  /** The pipe that has position q (from 0) as its d-th. */
  function Back(pipes: nat, q: nat, d: nat): (i: nat)
    requires q < pipes && d < pipes
    ensures i < pipes
  {
    if d <= q then q - d else q - d + pipes
  }

  lemma SlotIff(pipes: nat, i: nat, d: nat, q: nat)
    requires i < pipes && d < pipes && q < pipes
    ensures Slot(pipes, i, d) == q + 1 <==> i == Back(pipes, q, d)
  {
    if i + d < pipes { ModUnique(i + d, pipes, 0, i + d); } else { ModUnique(i + d, pipes, 1, i + d - pipes); }
  }

  /** The pipes that have position q among their first n. */
  function Carriers(pipes: nat, q: nat, n: nat): (s: set<nat>)
    requires q < pipes && n <= pipes
  {
    if n == 0 then {} else Carriers(pipes, q, n - 1) + {Back(pipes, q, n - 1)}
  }

  lemma {:induction false} CarrierIff(pipes: nat, q: nat, n: nat, i: nat)
    requires q < pipes && n <= pipes && i < pipes
    ensures i in Carriers(pipes, q, n) <==> exists d :: 0 <= d < n && Slot(pipes, i, d) == q + 1
  {
    if n > 0 {
      CarrierIff(pipes, q, n - 1, i);
      SlotIff(pipes, i, n - 1, q);
    }
  }

  lemma {:induction false} CarriersSize(pipes: nat, q: nat, n: nat)
    requires q < pipes && n <= pipes
    ensures |Carriers(pipes, q, n)| == n
    ensures forall i :: i in Carriers(pipes, q, n) ==> i < pipes && exists d :: 0 <= d < n && Back(pipes, q, d) == i
  {
    if n > 0 { CarriersSize(pipes, q, n - 1); }
  }

  /** The filters of a generated set that accept an offset. */
  function Accepting(pipes: nat, redundancies: nat, offset: int): set<nat>
    requires pipes > 0
  {
    set i: nat | i < pipes && Accepts(First(pipes, redundancies, i), pipes, offset)
  }

  /** Exact coverage: every integer offset is accepted by exactly one more filter than there are redundant ones. */
  lemma CoveredExactly(pipes: nat, redundancies: nat, offset: int)
    requires redundancies < pipes
    ensures |Accepting(pipes, redundancies, offset)| == redundancies + 1
  {
    var q := (offset - 1) % pipes;
    PosModIsModulo(offset - 1, pipes);
    forall i: nat | i < pipes
      ensures Accepts(First(pipes, redundancies, i), pipes, offset) <==> i in Carriers(pipes, q, redundancies + 1)
    {
      FirstFacts(pipes, redundancies, i, q + 1);
      CarrierIff(pipes, q, redundancies + 1, i);
    }
    CarriersSize(pipes, q, redundancies + 1);
    assert Accepting(pipes, redundancies, offset) == Carriers(pipes, q, redundancies + 1);
  }

  /** A configuration that loads, and whose filter passes the offset. */
  predicate Delivers(config: Bytes, offset: int) {
    var l := Load(config);
    l.Loaded? && l.filter.groups != [] && l.filter.k != 0 && Accepts(l.filter.groups[0], l.filter.k, offset)
  }

  /** The pipes that deliver an offset when each is configured with its line of the generator's output. */
  function Delivering(pipes: nat, redundancies: nat, offset: int): set<nat>
    requires pipes > 0
  {
    set i: nat | i < pipes && Delivers(ConfigOf(FilterOf(pipes, redundancies, i)), offset)
  }

  /** Generator and reader together: every integer offset is delivered by exactly r + 1 of the p pipes. */
  lemma EveryOffsetIsDelivered(pipes: nat, redundancies: nat, offset: int)
    requires redundancies < pipes && 3 * pipes <= MAX_INT64
    ensures |Delivering(pipes, redundancies, offset)| == redundancies + 1
  {
    forall i: nat | i < pipes
      ensures Delivers(ConfigOf(FilterOf(pipes, redundancies, i)), offset)
              <==> Accepts(First(pipes, redundancies, i), pipes, offset)
    {
      GeneratedLoads(pipes, redundancies, i);
    }
    CoveredExactly(pipes, redundancies, offset);
    assert Delivering(pipes, redundancies, offset) == Accepting(pipes, redundancies, offset);
  }
}

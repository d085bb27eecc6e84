/** src/create/create.go: reading the gap topic into the live windows of missing offsets. */
module GapState {
  import opened Bytes
  import opened Options
  import opened Text

  const COLON: byte := 58
  const DASH: byte := MINUS
  const BRACE: byte := 123

  /** A relative gap: one position, or a range of at least two. */
  datatype Range = One(at: int) | Span(first: int, last: int)

  function Low(r: Range): int {
    if r.One? then r.at else r.first
  }

  function High(r: Range): int {
    if r.One? then r.at else r.last
  }

  predicate Within(r: Range, n: int) {
    Low(r) <= n <= High(r)
  }

  datatype Window = Window(topic: Bytes, partition: int, windowMin: int, windowMax: int, gaps: seq<Range>, legacy: bool)

  // Keys

  /** windowKey */
  function WindowKey(topic: Bytes, partition: int, windowMin: int): Bytes {
    topic + [DASH] + Itoa(partition) + [DASH] + Itoa(windowMin)
  }

  lemma LaterSeparator(a: Bytes, x: Bytes, b: Bytes, y: Bytes, sep: byte)
    requires a + [sep] + x == b + [sep] + y
    ensures |a| < |b| ==> sep in x
  {
    if |a| < |b| { assert x[|b| - |a| - 1] == (b + [sep] + y)[|b|]; }
  }

  lemma LastSeparator(a: Bytes, x: Bytes, b: Bytes, y: Bytes, sep: byte)
    requires sep !in x && sep !in y && a + [sep] + x == b + [sep] + y
    ensures a == b && x == y
  {
    LaterSeparator(a, x, b, y, sep);
    LaterSeparator(b, y, a, x, sep);
    assert (a + [sep] + x)[..|a|] == a && (b + [sep] + y)[..|b|] == b;
    assert (a + [sep] + x)[|a| + 1..] == x && (b + [sep] + y)[|b| + 1..] == y;
  }

  lemma ItoaInjective(m: int, n: int)
    requires MIN_INT64 <= m <= MAX_INT64 && MIN_INT64 <= n <= MAX_INT64 && Itoa(m) == Itoa(n)
    ensures m == n
  {
    AtoiItoa(m);
    AtoiItoa(n);
  }

  /** Windows of partitions and offsets that are not negative never share a key, whatever their topics. */
  lemma WindowKeyInjective(t: Bytes, p: nat, w: nat, u: Bytes, q: nat, v: nat)
    requires p <= MAX_INT64 && q <= MAX_INT64 && w <= MAX_INT64 && v <= MAX_INT64
    requires WindowKey(t, p, w) == WindowKey(u, q, v)
    ensures t == u && p == q && w == v
  {
    ItoaHasNoSeparator(p, DASH);
    ItoaHasNoSeparator(q, DASH);
    ItoaHasNoSeparator(w, DASH);
    ItoaHasNoSeparator(v, DASH);
    LastSeparator(t + [DASH] + Itoa(p), Itoa(w), u + [DASH] + Itoa(q), Itoa(v), DASH);
    LastSeparator(t, Itoa(p), u, Itoa(q), DASH);
    ItoaInjective(p, q);
    ItoaInjective(w, v);
  }

  datatype GapKey = GapKey(topic: Bytes, partition: int, windowMin: int, legacy: bool)

  function LastIndex(s: Bytes, sep: byte): (i: int)
    ensures -1 <= i < |s|
  {
    if s == [] then -1 else if s[|s| - 1] == sep then |s| - 1 else LastIndex(s[..|s| - 1], sep)
  }

  function Numbers(topic: Bytes, partition: Bytes, windowMin: Bytes, legacy: bool): Option<GapKey> {
    match (Atoi(partition), Atoi(windowMin))
    case (Value(p), Value(w)) => Some(GapKey(topic, p, w, legacy))
    case _ => None
  }

  /** parseGapKey: "topic:partition:windowMin", or the legacy "topic_partition:windowMin". */
  function ParseGapKey(key: Bytes): Option<GapKey> {
    var parts := Split(key, COLON);
    if |parts| == 3 then Numbers(parts[0], parts[1], parts[2], false)
    else if |parts| == 2 then
      var underscore := LastIndex(parts[0], UNDERSCORE);
      if underscore <= 0 then None
      else Numbers(parts[0][..underscore], parts[0][underscore + 1..], parts[1], true)
    else None
  }

  /** The key dedup writes for a window. */
  function GapKeyOf(topic: Bytes, partition: int, windowMin: int): Bytes {
    Join([topic, Itoa(partition), Itoa(windowMin)], 58)
  }

  lemma ParseKeyOf(topic: Bytes, partition: int, windowMin: int)
    requires COLON !in topic && MIN_INT64 <= partition <= MAX_INT64 && MIN_INT64 <= windowMin <= MAX_INT64
    ensures Split(GapKeyOf(topic, partition, windowMin), COLON) == [topic, Itoa(partition), Itoa(windowMin)]
    ensures ParseGapKey(GapKeyOf(topic, partition, windowMin)) == Some(GapKey(topic, partition, windowMin, false))
  {
    ItoaHasNoSeparator(partition, COLON);
    ItoaHasNoSeparator(windowMin, COLON);
    SplitJoin([topic, Itoa(partition), Itoa(windowMin)], COLON);
    AtoiItoa(partition);
    AtoiItoa(windowMin);
  }

  /** The key of the older dedup. Its topic may hold underscores. */
  function LegacyKeyOf(topic: Bytes, partition: int, windowMin: int): Bytes {
    Join([topic + [95] + Itoa(partition), Itoa(windowMin)], 58)
  }

  lemma {:induction false} LastIndexFound(a: Bytes, b: Bytes, sep: byte)
    requires sep !in b
    ensures LastIndex(a + [sep] + b, sep) == |a|
  {
    var s := a + [sep] + b;
    if b == [] {
      assert s == a + [sep];
    } else {
      assert s[..|s| - 1] == a + [sep] + b[..|b| - 1];
      LastIndexFound(a, b[..|b| - 1], sep);
    }
  }

  lemma SplitLegacyKey(topic: Bytes, partition: int, windowMin: int)
    requires COLON !in topic
    ensures Split(LegacyKeyOf(topic, partition, windowMin), COLON) == [topic + [95] + Itoa(partition), Itoa(windowMin)]
  {
    ItoaHasNoSeparator(windowMin, COLON);
    ItoaHasNoSeparator(partition, COLON);
    SplitJoin([topic + [95] + Itoa(partition), Itoa(windowMin)], COLON);
  }

  lemma CutAtUnderscore(topic: Bytes, partition: int)
    ensures var front := topic + [95] + Itoa(partition);
            LastIndex(front, UNDERSCORE) == |topic|
            && front[..|topic|] == topic && front[|topic| + 1..] == Itoa(partition)
  {
    ItoaHasNoSeparator(partition, UNDERSCORE);
    LastIndexFound(topic, Itoa(partition), UNDERSCORE);
  }

  /** It is read back too, unless the topic is empty: the underscore must not come first. */
  lemma ParseLegacyKeyOf(topic: Bytes, partition: int, windowMin: int)
    requires COLON !in topic && MIN_INT64 <= partition <= MAX_INT64 && MIN_INT64 <= windowMin <= MAX_INT64
    ensures ParseGapKey(LegacyKeyOf(topic, partition, windowMin))
            == if topic == [] then None else Some(GapKey(topic, partition, windowMin, true))
  {
    SplitLegacyKey(topic, partition, windowMin);
    CutAtUnderscore(topic, partition);
    AtoiItoa(partition);
    AtoiItoa(windowMin);
  }

  // Payloads

  predicate Increasing(values: seq<nat>) {
    forall i, j :: 0 <= i < j < |values| ==> values[i] < values[j]
  }

  /** The set of positions in a bitmap, ascending. */
  function Ascending(s: set<nat>): (a: seq<nat>)
    ensures Increasing(a)
    ensures forall n :: n in a <==> n in s
    decreases |s|
  {
    if s == {} then []
    else
      assert exists m :: IsMaximum(s, m) by { var m := MaximumExists(s); }
      var m :| IsMaximum(s, m);
      Ascending(s - {m}) + [m]
  }

  predicate IsMaximum(s: set<nat>, m: nat) {
    m in s && forall n :: n in s ==> n <= m
  }

  lemma {:induction false} MaximumExists(s: set<nat>) returns (m: nat)
    requires s != {}
    ensures IsMaximum(s, m)
    decreases |s|
  {
    var x :| x in s;
    var rest := s - {x};
    assert s == rest + {x};
    if rest == {} {
      m := x;
    } else {
      m := MaximumExists(rest);
      if x > m { m := x; }
    }
  }

  /** One more position, next to the last range or behind it. */
  function Extend(ranges: seq<Range>, v: int): seq<Range> {
    var last := |ranges| - 1;
    if ranges != [] && v == High(ranges[last]) + 1 then ranges[..last] + [Span(Low(ranges[last]), v)]
    else ranges + [One(v)]
  }

  /** bitmapToRanges */
  function Ranges(values: seq<nat>): seq<Range> {
    if values == [] then [] else Extend(Ranges(values[..|values| - 1]), values[|values| - 1])
  }

  function Make(start: int, end: int): Range {
    if start == end then One(start) else Span(start, end)
  }

  method BitmapToRanges(values: seq<nat>) returns (ranges: seq<Range>)
    requires Increasing(values)
    ensures ranges == Ranges(values)
  {
    ranges := [];
    var rangeStart: int, prev: int := -1, -1;
    for i := 0 to |values|
      invariant if i == 0 then rangeStart == -1 && ranges == []
                else 0 <= rangeStart <= prev == values[i - 1] && Ranges(values[..i]) == ranges + [Make(rangeStart, prev)]
    {
      assert values[..i + 1][..i] == values[..i];
      var v := values[i];
      if rangeStart < 0 {
        rangeStart, prev := v, v;
      } else if v == prev + 1 {
        prev := v;
      } else {
        ranges := ranges + [Make(rangeStart, prev)];
        rangeStart, prev := v, v;
      }
    }
    assert values[..|values|] == values;
    if rangeStart >= 0 {
      ranges := ranges + [Make(rangeStart, prev)];
    }
  }

  /** Ascending ranges with at least one position missing between any two. */
  predicate Separated(ranges: seq<Range>) {
    (forall i :: 0 <= i < |ranges| ==> Proper(ranges[i]))
    && forall i, j :: 0 <= i < j < |ranges| ==> High(ranges[i]) + 1 < Low(ranges[j])
  }

  predicate Covers(ranges: seq<Range>, n: int) {
    exists i :: 0 <= i < |ranges| && Within(ranges[i], n)
  }

  lemma CoversSnoc(ranges: seq<Range>, r: Range, n: int)
    ensures Covers(ranges + [r], n) <==> Covers(ranges, n) || Within(r, n)
  {
    var all := ranges + [r];
    assert all[|ranges|] == r;
    if Covers(ranges, n) {
      var i :| 0 <= i < |ranges| && Within(ranges[i], n);
      assert Within(all[i], n);
    }
  }

  predicate Proper(r: Range) {
    r.Span? ==> r.first < r.last
  }

  lemma SeparatedSnoc(ranges: seq<Range>, r: Range)
    requires Separated(ranges) && Proper(r)
    requires ranges != [] ==> High(ranges[|ranges| - 1]) + 1 < Low(r)
    ensures Separated(ranges + [r])
  {
    forall i | 0 <= i < |ranges| ensures High(ranges[i]) + 1 < Low(r) {
      assert Low(ranges[|ranges| - 1]) <= High(ranges[|ranges| - 1]);
    }
  }

  lemma ExtendSeparated(ranges: seq<Range>, v: int)
    requires Separated(ranges) && (ranges != [] ==> High(ranges[|ranges| - 1]) < v)
    ensures Separated(Extend(ranges, v))
    ensures Extend(ranges, v) != [] && High(Extend(ranges, v)[|Extend(ranges, v)| - 1]) == v
  {
    var last := |ranges| - 1;
    if ranges != [] && v == High(ranges[last]) + 1 {
      assert Proper(ranges[last]);
      SeparatedSnoc(ranges[..last], Span(Low(ranges[last]), v));
    } else {
      SeparatedSnoc(ranges, One(v));
    }
  }

  lemma {:induction false} RangesAreSeparated(values: seq<nat>)
    requires Increasing(values)
    ensures Separated(Ranges(values))
    ensures values != [] ==> Ranges(values) != [] && High(Ranges(values)[|Ranges(values)| - 1]) == values[|values| - 1]
  {
    if values != [] {
      var before, v := values[..|values| - 1], values[|values| - 1];
      RangesAreSeparated(before);
      assert before == [] ==> Ranges(before) == [];
      ExtendSeparated(Ranges(before), v);
    }
  }

  /** The ranges hold exactly the positions of the bitmap. */
  lemma {:induction false} RangesAreExact(values: seq<nat>, n: int)
    requires Increasing(values)
    ensures Covers(Ranges(values), n) <==> n in values
  {
    if values != [] {
      var before, v := values[..|values| - 1], values[|values| - 1];
      RangesAreExact(before, n);
      LastIsProper(before);
      LastIsIn(before, v, n);
      assert values == before + [v];
      RangesSnoc(Ranges(before), v, n);
    }
  }

  lemma LastIsProper(values: seq<nat>)
    requires Increasing(values)
    ensures Ranges(values) != [] ==> Proper(Ranges(values)[|Ranges(values)| - 1])
  {
    RangesAreSeparated(values);
  }

  lemma LastIsIn(before: seq<nat>, v: nat, n: int)
    ensures n in before + [v] <==> n in before || n == v
  {
  }

  /** One more position, behind the last range or next to it. */
  lemma RangesSnoc(rest: seq<Range>, v: int, n: int)
    ensures Covers(rest + [One(v)], n) <==> Covers(rest, n) || n == v
    ensures rest != [] && v == High(rest[|rest| - 1]) + 1 && Low(rest[|rest| - 1]) <= v ==>
              (Covers(rest[..|rest| - 1] + [Span(Low(rest[|rest| - 1]), v)], n) <==> Covers(rest, n) || n == v)
  {
    CoversSnoc(rest, One(v), n);
    if rest != [] {
      var init, last := rest[..|rest| - 1], rest[|rest| - 1];
      assert rest == init + [last];
      CoversSnoc(init, last, n);
      CoversSnoc(init, Span(Low(last), v), n);
    }
  }

  /** The gaps of a window read from a bitmap. */
  function GapsOf(missing: set<nat>): seq<Range> {
    Ranges(Ascending(missing))
  }

  /** The missing offsets of a window read from a bitmap are its positions, counted from the window's first offset. */
  lemma BitmapIsMissing(missing: set<nat>, position: int)
    ensures Covers(GapsOf(missing), position) <==> position >= 0 && position in missing
  {
    RangesAreExact(Ascending(missing), position);
  }

  /** countMissing of src/gaps/gaps.go */
  function CountMissing(ranges: seq<Range>): int {
    if ranges == [] then 0
    else
      CountMissing(ranges[..|ranges| - 1])
      + match ranges[|ranges| - 1]
        case One(_) => 1
        case Span(a, b) => b - a + 1
  }

  lemma CountSnoc(ranges: seq<Range>, r: Range)
    requires Proper(r)
    ensures CountMissing(ranges + [r]) == CountMissing(ranges) + High(r) - Low(r) + 1
  {
    assert (ranges + [r])[..|ranges|] == ranges;
  }

  lemma ExtendCount(ranges: seq<Range>, v: int)
    requires Separated(ranges)
    ensures CountMissing(Extend(ranges, v)) == CountMissing(ranges) + 1
  {
    CountSnoc(ranges, One(v));
    if ranges != [] && v == High(ranges[|ranges| - 1]) + 1 {
      var init, last := ranges[..|ranges| - 1], ranges[|ranges| - 1];
      assert ranges == init + [last] && Proper(last);
      CountSnoc(init, last);
      CountSnoc(init, Span(Low(last), v));
    }
  }

  /** It counts each position of the bitmap once. */
  lemma {:induction false} CountIsSize(values: seq<nat>)
    requires Increasing(values)
    ensures CountMissing(Ranges(values)) == |values|
  {
    if values != [] {
      var before := values[..|values| - 1];
      CountIsSize(before);
      RangesAreSeparated(before);
      ExtendCount(Ranges(before), values[|values| - 1]);
    }
  }

  // Records of the gap topic

  /** The decoders of the two payload formats: a JSON window, and a portable bitmap. */
  datatype Readers = Readers(json: Bytes -> Option<Window>, bitmap: Bytes -> Option<set<nat>>)

  function Unsigned(b: Bytes): nat {
    if b == [] then 0 else 256 * Unsigned(b[..|b| - 1]) + b[|b| - 1] as int
  }

  /** int64(binary.BigEndian.Uint64(...)) */
  function Int64(b: Bytes): int {
    var n: int := Unsigned(b);
    if n > MAX_INT64 then n - 2 * (MAX_INT64 + 1) else n
  }

  lemma UnsignedSnoc(b: Bytes, last: byte)
    ensures Unsigned(b + [last]) == 256 * Unsigned(b) + last as int
  {
    assert (b + [last])[..|b|] == b;
  }

  lemma {:induction false} UnsignedOf(n: nat, width: nat)
    requires n < Pow256(width)
    ensures Unsigned(BigEndian(n, width)) == n
  {
    if width > 0 {
      UnsignedOf(n / 256, width - 1);
      UnsignedSnoc(BigEndian(n / 256, width - 1), (n % 256) as byte);
    }
  }

  lemma EightBytes()
    ensures Pow256(8) == 0x1_0000_0000_0000_0000
  {
    assert Pow256(2) == 0x1_0000 && Pow256(4) == 0x1_0000_0000 && Pow256(6) == 0x1_0000_0000_0000;
  }

  /** Eight bytes, the most significant first, in two's complement. */
  lemma Int64Of(n: int)
    requires -0x8000_0000_0000_0000 <= n <= 0x7FFF_FFFF_FFFF_FFFF
    ensures Int64(BigEndian(n % 0x1_0000_0000_0000_0000, 8)) == n
  {
    EightBytes();
    UnsignedOf(n % 0x1_0000_0000_0000_0000, 8);
  }

  /** isLegacyJSONPayload: the first byte that is not white space is a brace. */
  predicate IsLegacy(value: Bytes) {
    value != [] && (value[0] == BRACE || (value[0] in {32, 9, 13, 10} && IsLegacy(value[1..])))
  }

  /** Somewhere there is a brace, and only blanks, tabs and line ends before it. */
  predicate OpensWithBrace(value: Bytes) {
    exists n :: 0 <= n < |value| && value[n] == 123 && forall i :: 0 <= i < n ==> value[i] in {32, 9, 13, 10}
  }

  lemma {:induction false} LegacyIff(value: Bytes)
    ensures IsLegacy(value) <==> OpensWithBrace(value)
  {
    if value != [] && value[0] != BRACE {
      var rest := value[1..];
      LegacyIff(rest);
      if OpensWithBrace(value) {
        var n :| 0 <= n < |value| && value[n] == 123 && forall i :: 0 <= i < n ==> value[i] in {32, 9, 13, 10};
        assert rest[n - 1] == 123 && value[0] in {32, 9, 13, 10};
      }
      if IsLegacy(value) {
        var n :| 0 <= n < |rest| && rest[n] == 123 && forall i :: 0 <= i < n ==> rest[i] in {32, 9, 13, 10};
        assert value[n + 1] == 123;
      }
    }
  }

  const HEADER_LENGTH := 17

  /** parseGapPayload: topic and partition from the key, the window from the value. */
  function ParsePayload(readers: Readers, key: Bytes, value: Bytes): Option<Window> {
    if IsLegacy(value) then
      match readers.json(value)
      case None => None
      case Some(w) => Some(w.(legacy := true))
    else
      var parts := Split(key, COLON);
      if |parts| < 3 || !Atoi(parts[1]).Value? || |value| < HEADER_LENGTH || value[0] != 1 then None
      else
        match if |value| == HEADER_LENGTH then Some({}) else readers.bitmap(value[HEADER_LENGTH..])
        case None => None
        case Some(missing) =>
          Some(Window(parts[0], Atoi(parts[1]).n, Int64(value[1..9]), Int64(value[9..17]), GapsOf(missing), false))
  }

  /** What a record does: set or clear the latest record of a window in one of the formats, or nothing. */
  datatype Effect = Fails | Sets(legacy: bool, key: Bytes, window: Option<Window>)

  function EffectOf(readers: Readers, key: Bytes, value: Bytes): Effect {
    if value == [] then
      match ParseGapKey(key)
      case None => Fails
      case Some(k) => Sets(k.legacy, WindowKey(k.topic, k.partition, k.windowMin), None)
    else
      match ParsePayload(readers, key, value)
      case None => Fails
      case Some(w) => Sets(w.legacy, WindowKey(w.topic, w.partition, w.windowMin), Some(w))
  }

  datatype State = State(binary: map<Bytes, Option<Window>>, legacy: map<Bytes, Option<Window>>)

  const EMPTY := State(map[], map[])

  function Apply(s: State, e: Effect): State {
    match e
    case Fails => s
    case Sets(legacy, k, w) => if legacy then s.(legacy := s.legacy[k := w]) else s.(binary := s.binary[k := w])
  }

  function After(effects: seq<Effect>): State {
    if effects == [] then EMPTY else Apply(After(effects[..|effects| - 1]), effects[|effects| - 1])
  }

  /** The live window under a key: a binary record or tombstone hides any legacy record. */
  function LiveAt(s: State, k: Bytes): Option<Window> {
    if k in s.binary then s.binary[k] else if k in s.legacy then s.legacy[k] else None
  }

  function Live(s: State): map<Bytes, Window> {
    map k | k in s.binary.Keys + s.legacy.Keys && LiveAt(s, k).Some? :: LiveAt(s, k).value
  }

  /** The records for one window in one format, in the order read. */
  function For(effects: seq<Effect>, legacy: bool, k: Bytes): seq<Option<Window>> {
    if effects == [] then []
    else
      var rest, e := For(effects[..|effects| - 1], legacy, k), effects[|effects| - 1];
      if e.Sets? && e.legacy == legacy && e.key == k then rest + [e.window] else rest
  }

  /** The last record or tombstone in the binary format decides; without any, the last in the legacy format. */
  function Decided(binary: seq<Option<Window>>, legacy: seq<Option<Window>>): Option<Window> {
    if binary != [] then binary[|binary| - 1] else if legacy != [] then legacy[|legacy| - 1] else None
  }

  lemma {:induction false} LastRecordDecides(effects: seq<Effect>, k: Bytes)
    ensures LiveAt(After(effects), k) == Decided(For(effects, false, k), For(effects, true, k))
    ensures k in After(effects).binary <==> For(effects, false, k) != []
    ensures k in After(effects).legacy <==> For(effects, true, k) != []
    ensures k in After(effects).legacy ==> After(effects).legacy[k] == Decided([], For(effects, true, k))
  {
    if effects != [] { LastRecordDecides(effects[..|effects| - 1], k); }
  }

  /** The live windows do not depend on how the records of different windows and formats are interleaved. */
  lemma ReadOrderDoesNotMatter(es: seq<Effect>, fs: seq<Effect>)
    requires forall legacy, k :: For(es, legacy, k) == For(fs, legacy, k)
    ensures Live(After(es)) == Live(After(fs))
  {
    forall k ensures LiveAt(After(es), k) == LiveAt(After(fs), k) {
      LastRecordDecides(es, k);
      LastRecordDecides(fs, k);
      assert For(es, false, k) == For(fs, false, k) && For(es, true, k) == For(fs, true, k);
    }
  }

  /**
   * The tombstone that dedup writes under the key of a binary record clears the window exactly when the key and
   * the payload name the same first offset.
   */
  lemma TombstoneClearsIff(readers: Readers, s: State, topic: Bytes, partition: nat, windowMin: nat, value: Bytes)
    requires COLON !in topic && partition <= MAX_INT64 && windowMin <= MAX_INT64 && value != [] && !IsLegacy(value)
    requires ParsePayload(readers, GapKeyOf(topic, partition, windowMin), value).Some?
    requires 0 <= ParsePayload(readers, GapKeyOf(topic, partition, windowMin), value).value.windowMin <= MAX_INT64
    ensures var key := GapKeyOf(topic, partition, windowMin);
            var w := ParsePayload(readers, key, value).value;
            var k := WindowKey(w.topic, w.partition, w.windowMin);
            LiveAt(Apply(Apply(s, EffectOf(readers, key, value)), EffectOf(readers, key, [])), k)
            == if w.windowMin == windowMin then None else Some(w)
  {
    var key := GapKeyOf(topic, partition, windowMin);
    var w := ParsePayload(readers, key, value).value;
    ParseKeyOf(topic, partition, windowMin);
    assert w.topic == topic && w.partition == partition;
    if w.windowMin != windowMin && WindowKey(topic, partition, windowMin) == WindowKey(topic, partition, w.windowMin) {
      WindowKeyInjective(topic, partition, windowMin, topic, partition, w.windowMin);
    }
  }

  /**
   * A record in the older format stands under the window in its JSON text, whatever its key. A tombstone with the older
   * key clears it exactly when it names the same topic, partition and first offset; anything known of the window in the
   * newer format hides both.
   */
  lemma LegacyTombstoneClearsIff(readers: Readers, s: State, recordKey: Bytes, value: Bytes,
                                 topic: Bytes, partition: nat, windowMin: nat)
    requires topic != [] && COLON !in topic && partition <= MAX_INT64 && windowMin <= MAX_INT64
    requires OpensWithBrace(value) && readers.json(value).Some?
    requires var w := readers.json(value).value; 0 <= w.partition <= MAX_INT64 && 0 <= w.windowMin <= MAX_INT64
    ensures var w := readers.json(value).value;
            var k := WindowKey(w.topic, w.partition, w.windowMin);
            var tombstone := LegacyKeyOf(topic, partition, windowMin);
            LiveAt(Apply(Apply(s, EffectOf(readers, recordKey, value)), EffectOf(readers, tombstone, [])), k)
            == if k in s.binary then s.binary[k]
               else if w.topic == topic && w.partition == partition && w.windowMin == windowMin then None
               else Some(w.(legacy := true))
  {
    var w := readers.json(value).value;
    LegacyIff(value);
    ParseLegacyKeyOf(topic, partition, windowMin);
    if WindowKey(topic, partition, windowMin) == WindowKey(w.topic, w.partition, w.windowMin) {
      WindowKeyInjective(topic, partition, windowMin, w.topic, w.partition, w.windowMin);
    }
  }

  class GapTopic {
    var binary: map<Bytes, Option<Window>>
    var legacy: map<Bytes, Option<Window>>

    function Value(): State
      reads this
    {
      State(binary, legacy)
    }

    constructor ()
      ensures Value() == EMPTY
    {
      binary, legacy := map[], map[];
    }

    method Record(readers: Readers, key: Bytes, value: Bytes) returns (ok: bool)
      modifies this
      ensures Value() == Apply(old(Value()), EffectOf(readers, key, value))
      ensures ok == EffectOf(readers, key, value).Sets?
    {
      if |value| == 0 {
        var parsed := ParseGapKey(key);
        if parsed == None { return false; }
        var k := parsed.value;
        if k.legacy {
          legacy := legacy[WindowKey(k.topic, k.partition, k.windowMin) := None];
        } else {
          binary := binary[WindowKey(k.topic, k.partition, k.windowMin) := None];
        }
        return true;
      }
      var window := ParsePayload(readers, key, value);
      if window == None { return false; }
      var k := WindowKey(window.value.topic, window.value.partition, window.value.windowMin);
      if window.value.legacy {
        legacy := legacy[k := window];
      } else {
        binary := binary[k := window];
      }
      return true;
    }

    method Windows() returns (result: map<Bytes, Window>)
      ensures result == Live(Value())
    {
      result := map[];
      var todo := legacy.Keys;
      while todo != {}
        invariant todo <= legacy.Keys
        invariant forall k :: k in result <==> k in legacy && k !in todo && k !in binary && legacy[k].Some?
        invariant forall k :: k in result ==> result[k] == legacy[k].value
        decreases todo
      {
        var k :| k in todo;
        if k !in binary && legacy[k].Some? { result := result[k := legacy[k].value]; }
        todo := todo - {k};
      }
      todo := binary.Keys;
      while todo != {}
        invariant todo <= binary.Keys
        invariant forall k :: k in result <==> LiveAt(Value(), k).Some? && k !in todo
        invariant forall k :: k in result ==> result[k] == LiveAt(Value(), k).value
        decreases todo
      {
        var k :| k in todo;
        if binary[k].Some? { result := result[k := binary[k].value]; }
        todo := todo - {k};
      }
    }

    method Superseded() returns (n: nat)
      ensures n == |set k | k in legacy && legacy[k].Some? && k in binary|
    {
      n := 0;
      var todo := legacy.Keys;
      ghost var seen: set<Bytes> := {};
      while todo != {}
        invariant todo <= legacy.Keys && n == |seen|
        invariant seen == set k | k in legacy && k !in todo && legacy[k].Some? && k in binary
        decreases todo
      {
        var k :| k in todo;
        if k in binary && legacy[k].Some? {
          n := n + 1;
          seen := seen + {k};
        }
        todo := todo - {k};
      }
      assert seen == set k | k in legacy && legacy[k].Some? && k in binary;
    }
  }
}

/** From the records of the gap topic to the offsets that are resent. */
module TopicRecovery {
  import opened Bytes
  import opened Options
  import opened Text
  import opened GapState
  import opened Recovery

  datatype GapRecord = GapRecord(key: Bytes, value: Bytes)

  function EffectsOf(readers: Readers, records: seq<GapRecord>): (effects: seq<Effect>)
    ensures |effects| == |records|
  {
    seq(|records|, i requires 0 <= i < |records| => EffectOf(readers, records[i].key, records[i].value))
  }

  /** The effect sets or clears the window with this key in this format. */
  predicate Of(e: Effect, legacy: bool, key: Bytes) {
    e.Sets? && e.legacy == legacy && e.key == key
  }

  /** No record of the same window and format comes behind record i, and none in the binary format hides it. */
  predicate Stands(effects: seq<Effect>, i: nat)
    requires i < |effects|
  {
    && effects[i].Sets?
    && (forall j :: i < j < |effects| ==> !Of(effects[j], effects[i].legacy, effects[i].key))
    && (effects[i].legacy ==> forall j :: 0 <= j < |effects| ==> !Of(effects[j], false, effects[i].key))
  }

  /** The last record for a window in a format. */
  lemma {:induction false} LastOf(effects: seq<Effect>, legacy: bool, key: Bytes) returns (last: Option<nat>)
    ensures match last
            case None =>
              For(effects, legacy, key) == [] && forall j :: 0 <= j < |effects| ==> !Of(effects[j], legacy, key)
            case Some(i) =>
              i < |effects| && Of(effects[i], legacy, key) && For(effects, legacy, key) != []
              && For(effects, legacy, key)[|For(effects, legacy, key)| - 1] == effects[i].window
              && forall j :: i < j < |effects| ==> !Of(effects[j], legacy, key)
  {
    if effects == [] {
      last := None;
    } else {
      var n := |effects| - 1;
      last := LastOf(effects[..n], legacy, key);
      if Of(effects[n], legacy, key) { last := Some(n); }
    }
  }

  /** The window of a record that stands, and is no tombstone. */
  predicate Shows(effects: seq<Effect>, i: nat, w: Window) {
    i < |effects| && Stands(effects, i) && effects[i].window == Some(w)
  }

  lemma LiveIfShown(effects: seq<Effect>, i: nat, w: Window)
    requires Shows(effects, i, w)
    ensures LiveAt(After(effects), effects[i].key) == Some(w)
  {
    var key := effects[i].key;
    LastRecordDecides(effects, key);
    var binary := LastOf(effects, false, key);
    var legacy := LastOf(effects, true, key);
    assert Of(effects[i], effects[i].legacy, key);
  }

  lemma ShownIfLive(effects: seq<Effect>, key: Bytes, w: Window) returns (i: nat)
    requires LiveAt(After(effects), key) == Some(w)
    ensures Shows(effects, i, w)
  {
    LastRecordDecides(effects, key);
    var binary := LastOf(effects, false, key);
    var legacy := LastOf(effects, true, key);
    i := if binary.Some? then binary.value else legacy.value;
  }

  /** Any list of the live windows, as a visit of the map yields it. */
  ghost predicate Lists(windows: seq<Window>, live: map<Bytes, Window>) {
    forall w :: w in windows <==> w in live.Values
  }

  lemma ListedIffShown(effects: seq<Effect>, windows: seq<Window>, w: Window)
    requires Lists(windows, Live(After(effects)))
    ensures w in windows <==> exists i: nat :: Shows(effects, i, w)
  {
    var live := Live(After(effects));
    if w in windows {
      var key :| key in live && live[key] == w;
      var i := ShownIfLive(effects, key, w);
    }
    if i: nat :| Shows(effects, i, w) {
      LiveIfShown(effects, i, w);
      LastRecordDecides(effects, effects[i].key);
      assert effects[i].key in live && live[effects[i].key] == w;
    }
  }

  /** Every standing record names a partition Kafka has, and offsets that float64 carries. */
  predicate AllUsable(effects: seq<Effect>) {
    forall i :: 0 <= i < |effects| && Stands(effects, i) && effects[i].window.Some? ==>
      0 <= effects[i].window.value.partition <= MAX_INT64 && Exact(effects[i].window.value)
  }

  lemma ListIsUsable(effects: seq<Effect>, windows: seq<Window>)
    requires Lists(windows, Live(After(effects))) && AllUsable(effects)
    ensures Usable(windows)
  {
    forall w | w in windows ensures 0 <= w.partition <= MAX_INT64 && Exact(w) {
      ListedIffShown(effects, windows, w);
    }
  }

  /** The record's window has this topic and partition and misses the offset. */
  predicate Reports(e: Effect, topic: Bytes, partition: int, offset: int) {
    e.Sets? && e.window.Some? && e.window.value.topic == topic && e.window.value.partition == partition
    && Missing(e.window.value, offset)
  }

  /**
   * Whatever the gap topic holds and in whatever order its live windows are visited: in "all" mode an offset is
   * resent exactly when a record that stands reports it missing.
   */
  lemma ResentIffReported(round: Rounding, readers: Readers, records: seq<GapRecord>, windows: seq<Window>,
                          topic: Bytes, partition: int, offset: int)
    requires var effects := EffectsOf(readers, records); Lists(windows, Live(After(effects))) && AllUsable(effects)
    ensures var effects := EffectsOf(readers, records);
            PassesAll(Results(round, windows, false), topic, partition, offset)
            <==> exists i :: 0 <= i < |effects| && Stands(effects, i) && Reports(effects[i], topic, partition, offset)
  {
    var effects := EffectsOf(readers, records);
    ListIsUsable(effects, windows);
    AllIsExact(round, windows, topic, partition, offset);
    if w :| w in windows && w.topic == topic && w.partition == partition && Missing(w, offset) {
      ListedIffShown(effects, windows, w);
      var i: nat :| Shows(effects, i, w);
      assert Reports(effects[i], topic, partition, offset);
    }
    if i :| 0 <= i < |effects| && Stands(effects, i) && Reports(effects[i], topic, partition, offset) {
      assert Shows(effects, i, effects[i].window.value);
      ListedIffShown(effects, windows, effects[i].window.value);
    }
  }

  /** The window of a standing record, for a topic and partition given by their group key. */
  predicate ShowsFor(effects: seq<Effect>, i: nat, key: Bytes) {
    i < |effects| && Stands(effects, i) && effects[i].window.Some? && GroupKey(effects[i].window.value) == key
  }

  /** The standing windows of a topic and partition hold their gaps inside and do not overlap. */
  predicate TidyRecords(effects: seq<Effect>, key: Bytes) {
    && (forall i :: 0 <= i < |effects| && ShowsFor(effects, i, key) ==> Inside(effects[i].window.value))
    && forall i, j :: 0 <= i < |effects| && 0 <= j < |effects| && ShowsFor(effects, i, key) && ShowsFor(effects, j, key)
                      ==> Apart(effects[i].window.value, effects[j].window.value)
  }

  lemma ListIsTidy(effects: seq<Effect>, windows: seq<Window>, key: Bytes)
    requires Lists(windows, Live(After(effects))) && TidyRecords(effects, key)
    ensures Tidy(windows, key)
  {
    forall w | w in windows && GroupKey(w) == key ensures Inside(w) {
      var i := ShownInList(effects, windows, w);
    }
    forall w, x | w in windows && x in windows && GroupKey(w) == key && GroupKey(x) == key ensures Apart(w, x) {
      var i := ShownInList(effects, windows, w);
      var j := ShownInList(effects, windows, x);
    }
  }

  lemma ShownInList(effects: seq<Effect>, windows: seq<Window>, w: Window) returns (i: nat)
    requires Lists(windows, Live(After(effects))) && w in windows
    ensures Shows(effects, i, w) && ShowsFor(effects, i, GroupKey(w))
  {
    ListedIffShown(effects, windows, w);
    i :| Shows(effects, i, w);
  }

  /**
   * What the gap topic reports missing is recovered, whatever order its live windows are visited in: if the standing
   * windows of a topic and partition do not overlap, then an offset that one of them reports is resent in both modes,
   * and reading starts no later than it.
   */
  lemma ReportedIsRecovered(round: Rounding, readers: Readers, records: seq<GapRecord>, windows: seq<Window>, i: nat, offset: int)
    requires var effects := EffectsOf(readers, records);
             Lists(windows, Live(After(effects))) && AllUsable(effects) && i < |effects| && Stands(effects, i)
             && effects[i].window.Some? && Missing(effects[i].window.value, offset)
             && TidyRecords(effects, GroupKey(effects[i].window.value))
    ensures var w := EffectsOf(readers, records)[i].window.value;
            && PassesAll(Results(round, windows, false), w.topic, w.partition, offset)
            && PassesFirst(Results(round, windows, true), w.topic, w.partition, offset)
            && forall first, k ::
                 0 <= k < |Results(round, windows, first)| && IsFor(Results(round, windows, first)[k], w.topic, w.partition)
                 ==> StartOffset(Results(round, windows, first)[k]) <= offset
  {
    var effects := EffectsOf(readers, records);
    var w := effects[i].window.value;
    assert Shows(effects, i, w);
    ListedIffShown(effects, windows, w);
    ListIsUsable(effects, windows);
    ListIsTidy(effects, windows, GroupKey(w));
    RecoveryIsComplete(round, windows, w, offset);
  }

  /** The missing positions of a binary payload. */
  function Positions(readers: Readers, value: Bytes): Option<set<nat>>
    requires |value| >= 17
  {
    if |value| == 17 then Some({}) else readers.bitmap(value[17..])
  }

  lemma BinaryPayload(readers: Readers, topic: Bytes, partition: int, value: Bytes, windowMin: int)
    requires COLON !in topic && MIN_INT64 <= partition <= MAX_INT64 && MIN_INT64 <= windowMin <= MAX_INT64
    requires |value| >= 17 && value[0] == 1 && Positions(readers, value).Some?
    ensures ParsePayload(readers, GapKeyOf(topic, partition, windowMin), value)
            == Some(Window(topic, partition, Int64(value[1..9]), Int64(value[9..17]),
                           GapsOf(Positions(readers, value).value), false))
  {
    assert !IsLegacy(value);
    ParseKeyOf(topic, partition, windowMin);
    AtoiItoa(partition);
  }

  lemma WindowReports(e: Effect, topic: Bytes, partition: int, first: int, missing: set<nat>, offset: int)
    requires e.Sets? && e.window.Some? && e.window.value.topic == topic && e.window.value.partition == partition
    requires e.window.value.windowMin == first && e.window.value.gaps == GapsOf(missing)
    ensures Reports(e, topic, partition, offset) <==> offset >= first && offset - first in missing
  {
    BitmapIsMissing(missing, offset - first);
  }

  lemma BitmapEffect(readers: Readers, topic: Bytes, partition: int, value: Bytes, windowMin: int)
    requires COLON !in topic && MIN_INT64 <= partition <= MAX_INT64 && MIN_INT64 <= windowMin <= MAX_INT64
    requires |value| >= 17 && value[0] == 1 && Positions(readers, value).Some?
    ensures var e, missing := EffectOf(readers, GapKeyOf(topic, partition, windowMin), value), Positions(readers, value).value;
            e.Sets? && e.window.Some? && e.window.value.topic == topic && e.window.value.partition == partition
            && e.window.value.windowMin == Int64(value[1..9]) && e.window.value.gaps == GapsOf(missing)
  {
    BinaryPayload(readers, topic, partition, value, windowMin);
  }

  /** A binary record under the key of its window reports exactly the positions of its bitmap. */
  lemma ReportsBitmap(readers: Readers, topic: Bytes, partition: int, value: Bytes, windowMin: int, offset: int)
    requires COLON !in topic && MIN_INT64 <= partition <= MAX_INT64 && MIN_INT64 <= windowMin <= MAX_INT64
    requires |value| >= 17 && value[0] == 1 && Positions(readers, value).Some?
    ensures var first, missing := Int64(value[1..9]), Positions(readers, value).value;
            Reports(EffectOf(readers, GapKeyOf(topic, partition, windowMin), value), topic, partition, offset)
            <==> offset >= first && offset - first in missing
  {
    BitmapEffect(readers, topic, partition, value, windowMin);
    WindowReports(EffectOf(readers, GapKeyOf(topic, partition, windowMin), value), topic, partition,
                  Int64(value[1..9]), Positions(readers, value).value, offset);
  }

  /** A record in the newer format is read exactly if its header is whole, of version 1, and its bitmap is intact. */
  lemma BinaryReadIff(readers: Readers, topic: Bytes, partition: int, value: Bytes, windowMin: int)
    requires COLON !in topic && MIN_INT64 <= partition <= MAX_INT64 && MIN_INT64 <= windowMin <= MAX_INT64
    requires value != [] && !OpensWithBrace(value)
    ensures EffectOf(readers, GapKeyOf(topic, partition, windowMin), value).Sets?
            <==> |value| >= 17 && value[0] == 1 && Positions(readers, value).Some?
  {
    LegacyIff(value);
    ParseKeyOf(topic, partition, windowMin);
    AtoiItoa(partition);
  }

  /** A record as dedup writes it: version, first and last offset in eight bytes each, and the bitmap. */
  function BinaryRecord(first: int, last: int, bitmap: Bytes): Bytes {
    [1] + BigEndian(first % 0x1_0000_0000_0000_0000, 8) + BigEndian(last % 0x1_0000_0000_0000_0000, 8) + bitmap
  }

  /** What dedup writes is what is reported. */
  lemma ReportsWritten(readers: Readers, topic: Bytes, partition: int, first: int, last: int, bitmap: Bytes, missing: set<nat>,
                       offset: int)
    requires COLON !in topic && MIN_INT64 <= partition <= MAX_INT64
    requires -0x8000_0000_0000_0000 <= first <= 0x7FFF_FFFF_FFFF_FFFF
    requires if bitmap == [] then missing == {} else readers.bitmap(bitmap) == Some(missing)
    ensures var e := EffectOf(readers, GapKeyOf(topic, partition, first), BinaryRecord(first, last, bitmap));
            Reports(e, topic, partition, offset) <==> offset >= first && offset - first in missing
  {
    var value := BinaryRecord(first, last, bitmap);
    assert value[17..] == bitmap && value[1..9] == BigEndian(first % 0x1_0000_0000_0000_0000, 8);
    Int64Of(first);
    ReportsBitmap(readers, topic, partition, value, first, offset);
  }

  /** A record in the older format reports exactly the gaps in its JSON text, and fails if that is no window. */
  lemma ReportsJson(readers: Readers, key: Bytes, value: Bytes, topic: Bytes, partition: int, offset: int)
    requires OpensWithBrace(value)
    ensures Reports(EffectOf(readers, key, value), topic, partition, offset)
            <==> readers.json(value).Some?
                 && var w := readers.json(value).value;
                    w.topic == topic && w.partition == partition
                    && exists i :: 0 <= i < |w.gaps| && w.windowMin + Low(w.gaps[i]) <= offset <= w.windowMin + High(w.gaps[i])
  {
    LegacyIff(value);
    if readers.json(value).Some? {
      var w := readers.json(value).value;
      assert forall i :: 0 <= i < |w.gaps| ==>
        (Within(w.gaps[i], offset - w.windowMin)
         <==> w.windowMin + Low(w.gaps[i]) <= offset <= w.windowMin + High(w.gaps[i]));
    }
  }
}

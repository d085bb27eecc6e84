/** Where a record goes: the key it travels under, and the topic and partition read back from the key. */
module Routing {
  import opened Bytes
  import opened Options
  import opened Text
  import U = Upstream
  import D = Downstream

  const MAX_INT32 := 0x7FFF_FFFF

  /** The id of a Kafka record. */
  function RecordId(topic: Bytes, partition: int, offset: int): Bytes {
    Join([topic, Itoa(partition), Itoa(offset)], 95)
  }

  /** An id splits into its three fields exactly when the topic has no underscore. */
  lemma RecordIdSplits(topic: Bytes, partition: nat, offset: nat)
    ensures var parts := Split(RecordId(topic, partition, offset), UNDERSCORE);
            if UNDERSCORE in topic then |parts| > 3 else parts == [topic, Itoa(partition), Itoa(offset)]
  {
    var a, b := Itoa(partition), Itoa(offset);
    ItoaHasNoSeparator(partition, UNDERSCORE);
    ItoaHasNoSeparator(offset, UNDERSCORE);
    if UNDERSCORE in topic {
      var id := RecordId(topic, partition, offset);
      JoinThree(topic, a, b);
      OccurrencesConcat(topic + [UNDERSCORE] + a, [UNDERSCORE] + b, UNDERSCORE);
      OccurrencesConcat(topic, [UNDERSCORE] + a, UNDERSCORE);
      OccurrencesConcat([UNDERSCORE], a, UNDERSCORE);
      OccurrencesConcat([UNDERSCORE], b, UNDERSCORE);
      OccurrencesZero(topic, UNDERSCORE);
      SplitCount(id, UNDERSCORE);
      assert topic + [UNDERSCORE] + a == topic + ([UNDERSCORE] + a);
    } else {
      SplitJoin([topic, a, b], UNDERSCORE);
    }
  }

  lemma JoinThree(a: Bytes, b: Bytes, c: Bytes)
    ensures Join([a, b, c], UNDERSCORE) == a + [UNDERSCORE] + b + ([UNDERSCORE] + c)
  {
    assert [a, b, c][1..] == [b, c];
    assert [b, c][1..] == [c];
    assert Join([b, c], UNDERSCORE) == b + [UNDERSCORE] + c;
  }

  /**
   * The key of a record is its id with the topic translated and the partition shifted, unless the topic
   * holds an underscore: then the id travels unchanged. A partition shifted out of int32 ends the process.
   */
  lemma KeyOfRecord(u: U.Config, topic: Bytes, partition: nat, offset: nat)
    requires partition <= MAX_INT32
    ensures var key := U.TransformId(u, RecordId(topic, partition, offset));
            var shifted := partition + u.partitionStartValue;
            if UNDERSCORE in topic then key == Some(RecordId(topic, partition, offset))
            else if 0 <= shifted <= MAX_INT32 then
              key == Some(RecordId(U.TranslateTopic(u.translations, topic), shifted, offset))
            else key == None
  {
    RecordIdSplits(topic, partition, offset);
    AtoiItoa(partition);
  }

  /** Downstream reads topic and partition back, unless the topic holds an underscore. */
  lemma DestinationOfKey(d: D.Config, topic: Bytes, partition: nat, offset: nat)
    requires partition <= MAX_INT32
    ensures D.Destination(d, RecordId(topic, partition, offset))
            == if UNDERSCORE in topic then (U.TranslateTopic(d.translations, d.topic), 0)
               else (U.TranslateTopic(d.translations, topic), partition)
  {
    RecordIdSplits(topic, partition, offset);
    AtoiItoa(partition);
  }

  /** Topic and partition of a record at its destination. */
  lemma RecordIsRouted(u: U.Config, d: D.Config, topic: Bytes, partition: nat, offset: nat)
    requires partition <= MAX_INT32 && (UNDERSCORE !in topic ==> 0 <= partition + u.partitionStartValue <= MAX_INT32)
    ensures U.TransformId(u, RecordId(topic, partition, offset)).Some?
    ensures var key := U.TransformId(u, RecordId(topic, partition, offset)).value;
            var renamed := U.TranslateTopic(u.translations, topic);
            D.Destination(d, key)
            == if UNDERSCORE in topic || UNDERSCORE in renamed then (U.TranslateTopic(d.translations, d.topic), 0)
               else (U.TranslateTopic(d.translations, renamed), partition + u.partitionStartValue)
  {
    KeyOfRecord(u, topic, partition, offset);
    if UNDERSCORE in topic {
      DestinationOfKey(d, topic, partition, offset);
    } else {
      DestinationOfKey(d, U.TranslateTopic(u.translations, topic), partition + u.partitionStartValue, offset);
    }
  }
}

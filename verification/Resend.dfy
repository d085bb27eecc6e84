/** src/resend/resend.go: partitions and ids of resent records. */
module Resend {
  import opened Bytes
  import opened Options
  import opened Text
  import U = Upstream
  import Routing

  /** mapUpstreamToDownstreamPartition; -1 stands for all partitions. */
  function ToDownstream(partition: int, start: int): int {
    if partition == -1 then -1 else partition + start
  }

  /** The id under which the handler resends a record: the partition shifted, the topic as it is. */
  function ResendId(id: Bytes, start: int): Bytes {
    var parts := Split(id, UNDERSCORE);
    if |parts| != 3 then id
    else
      var p := if Atoi(parts[1]).Value? then Atoi(parts[1]).n else 0;
      Join([parts[0], Itoa(ToDownstream(p, start)), parts[2]], UNDERSCORE)
  }

  lemma UnderscoreKeepsId(u: U.Config, topic: Bytes, partition: nat, offset: nat)
    requires UNDERSCORE in topic
    ensures var id := Routing.RecordId(topic, partition, offset);
            U.TransformId(u, id) == Some(id) && ResendId(id, u.partitionStartValue) == id
  {
    Routing.RecordIdSplits(topic, partition, offset);
  }

  /**
   * A record is resent under the key it was first sent under exactly when its topic holds an underscore, and so is
   * left alone both times, or is not translated upstream.
   */
  lemma ResentUnderSameKeyIff(u: U.Config, topic: Bytes, partition: nat, offset: nat)
    requires partition <= Routing.MAX_INT32 && 0 <= partition + u.partitionStartValue <= Routing.MAX_INT32
    ensures var id := Routing.RecordId(topic, partition, offset);
            U.TransformId(u, id).Some?
            && (ResendId(id, u.partitionStartValue) == U.TransformId(u, id).value
                <==> UNDERSCORE in topic || U.TranslateTopic(u.translations, topic) == topic)
  {
    if UNDERSCORE in topic {
      UnderscoreKeepsId(u, topic, partition, offset);
    } else {
      var renamed, shifted := U.TranslateTopic(u.translations, topic), partition + u.partitionStartValue;
      Routing.RecordIdSplits(topic, partition, offset);
      Routing.KeyOfRecord(u, topic, partition, offset);
      AtoiItoa(partition);
      SameSuffix(topic, renamed, shifted, offset);
    }
  }

  lemma SameSuffix(topic: Bytes, renamed: Bytes, partition: int, offset: int)
    ensures Routing.RecordId(topic, partition, offset) == Routing.RecordId(renamed, partition, offset) <==> topic == renamed
  {
    var a, b := Itoa(partition), Itoa(offset);
    Routing.JoinThree(topic, a, b);
    Routing.JoinThree(renamed, a, b);
    var suffix := [UNDERSCORE] + a + ([UNDERSCORE] + b);
    assert Routing.RecordId(topic, partition, offset) == topic + suffix;
    assert Routing.RecordId(renamed, partition, offset) == renamed + suffix;
    if topic + suffix == renamed + suffix {
      assert |topic| == |renamed|;
      assert topic == (topic + suffix)[..|topic|] && renamed == (renamed + suffix)[..|topic|];
    }
  }
}

/** src/protocol/messageTypes.go: packet types below 32, with bit flags from 32 up. */
module MessageTypes {
  import opened Bytes

  const TYPE_MESSAGE: byte := 0
  const TYPE_ERROR: byte := 1
  const TYPE_KEY_EXCHANGE: byte := 3
  const TYPE_MULTIPART: byte := 5
  const TYPE_CLEARTEXT: byte := 6
  const TYPE_COMPRESSED_GZIP: byte := 32

  function And(a: byte, b: byte): byte {
    ((a as bv8) & (b as bv8)) as byte
  }

  /** Add a flag to a type. */
  function Merge(a: byte, b: byte): byte {
    ((a as bv8) | (b as bv8)) as byte
  }

  predicate IsMessageType(t: byte, kind: byte) {
    if t >= TYPE_COMPRESSED_GZIP then And(t, kind) == kind else t == kind
  }

  /** How the downstream switch sees a type, first match first. */
  datatype Kind = Cleartext(gzip: bool) | Encrypted(gzip: bool) | KeyExchange | ErrorReport | Fragment | Other

  function KindOf(t: byte): Kind {
    if IsMessageType(t, TYPE_CLEARTEXT) then Cleartext(IsMessageType(t, TYPE_COMPRESSED_GZIP))
    else if IsMessageType(t, TYPE_MESSAGE) then Encrypted(IsMessageType(t, TYPE_COMPRESSED_GZIP))
    else if IsMessageType(t, TYPE_KEY_EXCHANGE) then KeyExchange
    else if IsMessageType(t, TYPE_ERROR) then ErrorReport
    else if IsMessageType(t, TYPE_MULTIPART) then Fragment
    else Other
  }

  /** The type the upstream side writes for each combination of encryption and compression. */
  function TypeFor(encrypted: bool, gzip: bool): byte {
    Merge(if encrypted then TYPE_MESSAGE else TYPE_CLEARTEXT, if gzip then TYPE_COMPRESSED_GZIP else 0)
  }

  /** The four types sent upstream are told apart downstream. */
  lemma KindOfTypeFor(encrypted: bool, gzip: bool)
    ensures KindOf(TypeFor(encrypted, gzip)) == if encrypted then Encrypted(gzip) else Cleartext(gzip)
  {
  }

  /** With any flag set a type stands for a record: in clear text if it holds both bits of 6, and else encrypted. */
  lemma KindOfFlagged(t: byte)
    requires t >= 32
    ensures var gzip := (t as bv8) & 32 == 32;
            KindOf(t) == if (t as bv8) & 6 == 6 then Cleartext(gzip) else Encrypted(gzip)
  {
    assert (t as bv8) & 0 == 0;
  }

  /** Without flags, the types themselves decide. */
  lemma KindOfPlain(t: byte)
    requires t < 32
    ensures KindOf(t) == match t
                         case 0 => Encrypted(false)
                         case 1 => ErrorReport
                         case 3 => KeyExchange
                         case 5 => Fragment
                         case 6 => Cleartext(false)
                         case _ => Other
  {
  }
}

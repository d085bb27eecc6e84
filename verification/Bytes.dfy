/** Bytes on the wire and the fixed-width integers the programs write into them. */
module Bytes {

  newtype byte = b: int | 0 <= b < 256

  type Bytes = seq<byte>

  type uint16 = n: nat | n < 0x1_0000

  /** Go's conversion to uint16: the value is reduced, never refused. */
  function Uint16(n: int): (r: uint16)
    ensures 0 <= n < 0x1_0000 ==> r == n
  {
    n % 0x1_0000
  }

  /** binary.BigEndian.PutUint16. */
  function Put16(n: uint16): (b: Bytes)
    ensures |b| == 2
  {
    [(n / 256) as byte, (n % 256) as byte]
  }

  /** binary.BigEndian.Uint16 of the two bytes that start at `at`. */
  function Get16(b: Bytes, at: nat): uint16
    requires at + 2 <= |b|
  {
    b[at] as int * 256 + b[at + 1] as int
  }

  function Pow256(width: nat): (p: nat)
    ensures p > 0
  {
    if width == 0 then 1 else 256 * Pow256(width - 1)
  }

  /** The low `width` bytes of n, most significant first (PutUint32, PutUint64). */
  function BigEndian(n: nat, width: nat): (b: Bytes)
    ensures |b| == width
  {
    if width == 0 then [] else BigEndian(n / 256, width - 1) + [(n % 256) as byte]
  }

  /** Distinct values that fit have distinct encodings. */
  lemma {:induction false} BigEndianInjective(m: nat, n: nat, width: nat)
    requires m < Pow256(width) && n < Pow256(width)
    requires BigEndian(m, width) == BigEndian(n, width)
    ensures m == n
  {
    if width > 0 {
      var hm, hn := BigEndian(m / 256, width - 1), BigEndian(n / 256, width - 1);
      assert BigEndian(m, width)[..width - 1] == hm && BigEndian(n, width)[..width - 1] == hn;
      assert BigEndian(m, width)[width - 1] == (m % 256) as byte;
      assert BigEndian(n, width)[width - 1] == (n % 256) as byte;
      BigEndianInjective(m / 256, n / 256, width - 1);
    }
  }

  /** append over a list of byte slices, in order. */
  function Flatten(parts: seq<Bytes>): (b: Bytes) {
    if parts == [] then [] else parts[0] + Flatten(parts[1..])
  }

  lemma {:induction false} FlattenSnoc(parts: seq<Bytes>, last: Bytes)
    ensures Flatten(parts + [last]) == Flatten(parts) + last
  {
    if parts == [] {
      assert parts + [last] == [last];
      assert Flatten([last]) == last + Flatten([]);
    } else {
      assert (parts + [last])[1..] == parts[1..] + [last];
      FlattenSnoc(parts[1..], last);
    }
  }
}

/** The string functions the programs build ids and keys with: strings.Split, strings.Join, strconv. */
module Text {
  import opened Bytes

  const UNDERSCORE: byte := 95
  const MINUS: byte := 45
  const PLUS: byte := 43
  const MAX_INT64 := 0x7FFF_FFFF_FFFF_FFFF
  const MIN_INT64 := -0x8000_0000_0000_0000

  /** strings.Split with a one-byte separator. */
  function Split(s: Bytes, sep: byte): (parts: seq<Bytes>)
    ensures |parts| > 0
  {
    if s == [] then [[]]
    else
      var tail := Split(s[1..], sep);
      if s[0] == sep then [[]] + tail else [[s[0]] + tail[0]] + tail[1..]
  }

  /** strings.Join with a one-byte separator. */
  function Join(parts: seq<Bytes>, sep: byte): Bytes {
    if parts == [] then [] else if |parts| == 1 then parts[0] else parts[0] + [sep] + Join(parts[1..], sep)
  }

  lemma {:induction false} SplitPlain(s: Bytes, sep: byte)
    requires sep !in s
    ensures Split(s, sep) == [s]
  {
    if s != [] {
      SplitPlain(s[1..], sep);
      assert [s[0]] + s[1..] == s;
    }
  }

  lemma {:induction false} SplitAtSeparator(head: Bytes, rest: Bytes, sep: byte)
    requires sep !in head
    ensures Split(head + [sep] + rest, sep) == [head] + Split(rest, sep)
  {
    var s := head + [sep] + rest;
    if head == [] {
      assert s[1..] == rest;
    } else {
      SplitAtSeparator(head[1..], rest, sep);
      assert s[1..] == head[1..] + [sep] + rest;
      assert [head[0]] + head[1..] == head;
    }
  }

  /** Splitting undoes joining when no part holds the separator. */
  lemma {:induction false} SplitJoin(parts: seq<Bytes>, sep: byte)
    requires parts != [] && forall p :: p in parts ==> sep !in p
    ensures Split(Join(parts, sep), sep) == parts
  {
    if |parts| == 1 {
      SplitPlain(parts[0], sep);
    } else {
      SplitJoin(parts[1..], sep);
      SplitAtSeparator(parts[0], Join(parts[1..], sep), sep);
    }
  }

  /** A string with n separators splits into n + 1 parts. */
  function Occurrences(s: Bytes, sep: byte): nat {
    if s == [] then 0 else (if s[0] == sep then 1 else 0) + Occurrences(s[1..], sep)
  }

  lemma {:induction false} SplitCount(s: Bytes, sep: byte)
    ensures |Split(s, sep)| == Occurrences(s, sep) + 1
  {
    if s != [] { SplitCount(s[1..], sep); }
  }

  lemma {:induction false} OccurrencesConcat(a: Bytes, b: Bytes, sep: byte)
    ensures Occurrences(a + b, sep) == Occurrences(a, sep) + Occurrences(b, sep)
  {
    if a == [] {
      assert a + b == b;
    } else {
      OccurrencesConcat(a[1..], b, sep);
      assert (a + b)[1..] == a[1..] + b;
    }
  }

  lemma {:induction false} OccurrencesZero(s: Bytes, sep: byte)
    ensures Occurrences(s, sep) == 0 <==> sep !in s
  {
    if s != [] { OccurrencesZero(s[1..], sep); }
  }

  predicate IsDigit(c: byte) {
    48 <= c <= 57
  }

  /** Decimal digits of n, without leading zeros. */
  function Digits(n: nat): (d: Bytes)
    ensures |d| > 0 && forall c :: c in d ==> IsDigit(c)
  {
    if n < 10 then [(48 + n) as byte] else Digits(n / 10) + [(48 + n % 10) as byte]
  }

  /** strconv.Itoa */
  function Itoa(n: int): Bytes {
    if n < 0 then [MINUS] + Digits(-n) else Digits(n)
  }

  function DigitsValue(d: Bytes): nat
    requires forall c :: c in d ==> IsDigit(c)
  {
    if d == [] then 0
    else
      var last := d[|d| - 1];
      assert IsDigit(last);
      10 * DigitsValue(d[..|d| - 1]) + (last as int - 48)
  }

  lemma {:induction false} DigitsValueOfDigits(n: nat)
    ensures DigitsValue(Digits(n)) == n
  {
    if n >= 10 {
      DigitsValueOfDigits(n / 10);
      var d := Digits(n);
      assert d[..|d| - 1] == Digits(n / 10);
    } else {
      assert Digits(n)[..0] == [];
    }
  }

  /** strconv.Atoi: the value, or a syntax error (value 0), or a range error (the nearest int64). */
  datatype Number = Value(n: int) | Syntax | OutOfRange(nearest: int)

  function Atoi(s: Bytes): Number {
    var d := if s != [] && (s[0] == MINUS || s[0] == PLUS) then s[1..] else s;
    if d == [] || exists c :: c in d && !IsDigit(c) then Syntax
    else
      var n: int := if s[0] == MINUS then 0 - DigitsValue(d) else DigitsValue(d);
      if n > MAX_INT64 then OutOfRange(MAX_INT64) else if n < MIN_INT64 then OutOfRange(MIN_INT64) else Value(n)
  }

  /** What callers that ignore the error get. */
  function AtoiUnchecked(s: Bytes): int {
    match Atoi(s)
    case Value(n) => n
    case Syntax => 0
    case OutOfRange(nearest) => nearest
  }

  lemma AtoiItoa(n: int)
    requires -0x8000_0000_0000_0000 <= n <= 0x7FFF_FFFF_FFFF_FFFF
    ensures Atoi(Itoa(n)) == Value(n)
  {
    if n < 0 {
      DigitsValueOfDigits(-n);
      assert Itoa(n)[1..] == Digits(-n);
    } else {
      DigitsValueOfDigits(n);
      assert IsDigit(Digits(n)[0]);
    }
  }

  lemma ItoaHasNoSeparator(n: int, sep: byte)
    requires !IsDigit(sep) && (sep == MINUS ==> n >= 0)
    ensures sep !in Itoa(n)
  {
  }
}

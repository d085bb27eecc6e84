/** The rate limiter of src/upstream/upstream.go, over the reals and for calls one after the other. */
module TokenBucket {

  datatype Bucket = Bucket(rate: nat, tokens: real, lastRefill: real)

  /** NewTokenBucket: capacity and refill rate are both `rate`. */
  function New(rate: nat, now: real): Bucket {
    Bucket(rate, rate as real, now)
  }

  function Refill(b: Bucket, now: real): real {
    (now - b.lastRefill) * b.rate as real
  }

  /** The tokens there are at a time. */
  function Available(b: Bucket, now: real): real {
    var refill := Refill(b, now);
    if refill > 0.0 then if b.tokens + refill < b.rate as real then b.tokens + refill else b.rate as real
    else b.tokens
  }

  function Refilled(b: Bucket, now: real): Bucket {
    if Refill(b, now) > 0.0 then b.(tokens := Available(b, now), lastRefill := now) else b
  }

  /** One turn of the loop in Take, and whether it takes a token. */
  function Try(b: Bucket, now: real): (Bucket, bool) {
    var b' := Refilled(b, now);
    if b'.tokens >= 1.0 then (b'.(tokens := b'.tokens - 1.0), true) else (b', false)
  }

  /** The bucket after some turns, and how many of them took a token. */
  function Tries(b: Bucket, clock: seq<real>): (Bucket, nat)
    decreases |clock|
  {
    if clock == [] then (b, 0)
    else
      var (b1, taken) := Try(b, clock[0]);
      var (b2, n) := Tries(b1, clock[1..]);
      (b2, n + if taken then 1 else 0)
  }

  class Limiter {
    const capacity: nat
    var tokens: real
    var lastRefill: real

    function Value(): Bucket
      reads this
    {
      Bucket(capacity, tokens, lastRefill)
    }

    constructor (rate: nat, now: real)
      ensures Value() == New(rate, now)
    {
      capacity, tokens, lastRefill := rate, rate as real, now;
    }

    /** One turn of the loop. */
    method Turn(now: real) returns (taken: bool)
      modifies this
      ensures (Value(), taken) == Try(old(Value()), now)
    {
      var refill := (now - lastRefill) * capacity as real;
      assert refill == Refill(Value(), now);
      if refill > 0.0 {
        tokens := if tokens + refill < capacity as real then tokens + refill else capacity as real;
        lastRefill := now;
      }
      taken := tokens >= 1.0;
      if taken { tokens := tokens - 1.0; }
    }

    /** Take, for the clock readings of its turns; it has not returned when they run out. */
    method Take(clock: seq<real>) returns (turns: nat, taken: bool)
      modifies this
      ensures turns <= |clock| && (!taken ==> turns == |clock|) && (taken ==> turns > 0)
      ensures (Value(), if taken then 1 else 0) == Tries(old(Value()), clock[..turns])
      ensures Sound(old(Value())) && Ticks(old(lastRefill), clock) && DueAtLast(old(Value()), clock) ==> taken
    {
      turns, taken := 0, false;
      while turns < |clock| && !taken
        invariant turns <= |clock| && (taken ==> turns > 0)
        invariant (Value(), if taken then 1 else 0) == Tries(old(Value()), clock[..turns])
        decreases |clock| - turns
      {
        TriesSnoc(old(Value()), clock[..turns], clock[turns]);
        assert clock[..turns + 1] == clock[..turns] + [clock[turns]];
        taken := Turn(clock[turns]);
        turns := turns + 1;
      }
      if turns == |clock| {
        assert clock[..turns] == clock;
        if Sound(old(Value())) && Ticks(old(lastRefill), clock) && DueAtLast(old(Value()), clock) {
          TakesWhenDue(old(Value()), clock);
        }
      }
    }
  }

  lemma {:induction false} TriesSnoc(b: Bucket, clock: seq<real>, now: real)
    decreases |clock|
    ensures var (b1, n) := Tries(b, clock);
            var (b2, taken) := Try(b1, now);
            Tries(b, clock + [now]) == (b2, n + if taken then 1 else 0)
  {
    if clock == [] {
      assert clock + [now] == [now];
      assert [now][1..] == [];
    } else {
      assert (clock + [now])[1..] == clock[1..] + [now];
      TriesSnoc(Try(b, clock[0]).0, clock[1..], now);
    }
  }

  predicate Sound(b: Bucket) {
    0.0 <= b.tokens <= b.rate as real
  }

  /** The clock does not go back. */
  predicate Ticks(start: real, clock: seq<real>)
    decreases |clock|
  {
    clock == [] || (start <= clock[0] && Ticks(clock[0], clock[1..]))
  }

  function Last(start: real, clock: seq<real>): real {
    if clock == [] then start else clock[|clock| - 1]
  }

  /** What the rate allows in a stretch of time. */
  function Credit(rate: nat, from: real, to: real): real {
    (to - from) * rate as real
  }

  lemma CreditFacts(rate: nat, a: real, b: real, c: real)
    requires a <= b <= c
    ensures Credit(rate, a, c) == Credit(rate, a, b) + Credit(rate, b, c)
    ensures Credit(rate, a, b) >= 0.0 && Credit(rate, b, c) >= 0.0 && Credit(rate, b, b) == 0.0
  {
    var r := rate as real;
    assert (c - a) * r == (b - a) * r + (c - b) * r;
    Product(b - a, r);
    Product(c - b, r);
  }

  lemma Product(x: real, y: real)
    requires x >= 0.0 && y >= 0.0
    ensures x * y >= 0.0
  {
  }

  /** Available, from the tokens and the credit since the last refill. */
  function Capped(tokens: real, credit: real, rate: nat): real {
    if credit > 0.0 then if tokens + credit < rate as real then tokens + credit else rate as real else tokens
  }

  lemma AvailableIsCapped(b: Bucket, now: real)
    ensures Available(b, now) == Capped(b.tokens, Credit(b.rate, b.lastRefill, now), b.rate)
  {
  }

  /** Tokens grow no faster than the rate. */
  lemma AvailableGrows(b: Bucket, s: real, u: real)
    requires Sound(b) && b.lastRefill <= s <= u
    ensures Available(b, u) <= Available(b, s) + Credit(b.rate, s, u)
    ensures 0.0 <= Available(b, s) <= b.rate as real
  {
    AvailableIsCapped(b, s);
    AvailableIsCapped(b, u);
    CreditFacts(b.rate, b.lastRefill, s, u);
    CappedGrows(b.tokens, b.rate, Credit(b.rate, b.lastRefill, s), Credit(b.rate, s, u));
  }

  lemma CappedGrows(tokens: real, rate: nat, before: real, after: real)
    requires 0.0 <= tokens <= rate as real && before >= 0.0 && after >= 0.0
    ensures Capped(tokens, before + after, rate) <= Capped(tokens, before, rate) + after
    ensures 0.0 <= Capped(tokens, before, rate) <= rate as real
  {
  }

  lemma TryFacts(b: Bucket, u: real)
    requires Sound(b) && b.lastRefill <= u
    ensures var (b', taken) := Try(b, u);
            Sound(b') && b'.rate == b.rate && b.lastRefill <= b'.lastRefill <= u
            && Available(b', u) == Available(b, u) - if taken then 1.0 else 0.0
  {
    var (b', taken) := Try(b, u);
    CreditFacts(b.rate, b.lastRefill, u, u);
    AvailableIsCapped(b, u);
    AvailableIsCapped(b', u);
    assert Refill(b, u) == Credit(b.rate, b.lastRefill, u);
    assert b'.lastRefill == (if Refill(b, u) > 0.0 then u else b.lastRefill);
    assert Credit(b'.rate, b'.lastRefill, u) <= 0.0;
  }

  /** The tokens a turn at u takes, and those taken after it. */
  lemma TurnIsBounded(b: Bucket, s: real, u: real, t: real, later: nat)
    requires Sound(b) && b.lastRefill <= s <= u <= t
    requires later as real <= Available(Try(b, u).0, u) + Credit(b.rate, u, t)
    ensures later as real + (if Try(b, u).1 then 1.0 else 0.0) <= Available(b, s) + Credit(b.rate, s, t)
  {
    TryFacts(b, u);
    AvailableGrows(b, s, u);
    CreditFacts(b.rate, s, u, t);
  }

  /** There is a token at time u: the rate is not zero, and what is left and what the rate allows since make one. */
  predicate IsDue(b: Bucket, u: real) {
    b.rate >= 1 && b.tokens + (u - b.lastRefill) * b.rate as real >= 1.0
  }

  predicate DueAtLast(b: Bucket, clock: seq<real>) {
    clock != [] && IsDue(b, clock[|clock| - 1])
  }

  /** A turn takes a token exactly if there is one. If there is none, what the rate has allowed is not lost. */
  lemma TurnTakesIff(b: Bucket, u: real)
    requires Sound(b) && b.lastRefill <= u
    ensures var (b', taken) := Try(b, u);
            && (taken <==> IsDue(b, u))
            && (!taken && b.rate >= 1 ==> b'.tokens == b.tokens + (u - b.lastRefill) * b.rate as real
                                          && (u - b'.lastRefill) * b.rate as real == 0.0)
  {
    Product(u - b.lastRefill, b.rate as real);
  }

  /** If there is a token at the last reading of the clock, one of the turns has taken one. */
  lemma {:induction false} TakesWhenDue(b: Bucket, clock: seq<real>)
    requires Sound(b) && Ticks(b.lastRefill, clock) && DueAtLast(b, clock)
    ensures Tries(b, clock).1 >= 1
    decreases |clock|
  {
    var u, last := clock[0], clock[|clock| - 1];
    TurnTakesIff(b, u);
    if !Try(b, u).1 {
      TryFacts(b, u);
      assert clock != [u];
      CreditFacts(b.rate, b.lastRefill, u, u);
      assert (last - b.lastRefill) * b.rate as real == (u - b.lastRefill) * b.rate as real + (last - u) * b.rate as real;
      TakesWhenDue(Try(b, u).0, clock[1..]);
    }
  }

  /** A bucket that holds n tokens gives at least n, whenever they are asked for. */
  lemma {:induction false} StockIsTaken(b: Bucket, clock: seq<real>)
    requires Sound(b) && b.rate >= 1 && Ticks(b.lastRefill, clock) && |clock| as real <= b.tokens
    ensures Tries(b, clock).1 == |clock|
    decreases |clock|
  {
    if clock != [] {
      var u := clock[0];
      TryFacts(b, u);
      TurnTakesIff(b, u);
      Product(u - b.lastRefill, b.rate as real);
      TakenLeaves(b, u);
      TicksLater(Try(b, u).0.lastRefill, u, clock[1..]);
      StockIsTaken(Try(b, u).0, clock[1..]);
    }
  }

  lemma TakenLeaves(b: Bucket, u: real)
    requires Sound(b) && b.lastRefill <= u
    ensures Try(b, u).0.tokens >= b.tokens - 1.0
  {
    CreditFacts(b.rate, b.lastRefill, u, u);
  }

  lemma TicksLater(start: real, later: real, clock: seq<real>)
    requires start <= later && Ticks(later, clock)
    ensures Ticks(start, clock)
  {
  }

  /** A new bucket is full: as many calls as the rate return at once. */
  lemma NewIsFull(rate: nat, now: real, clock: seq<real>)
    requires Ticks(now, clock) && |clock| <= rate
    ensures Tries(New(rate, now), clock).1 == |clock|
  {
    if clock != [] { StockIsTaken(New(rate, now), clock); }
  }

  lemma TimeOfOne(rate: real, time: real)
    requires rate >= 1.0 && time >= 1.0 / rate
    ensures time * rate >= 1.0
  {
    var x := 1.0 / rate;
    assert x * rate == 1.0;
    Product(time - x, rate);
    assert (time - x) * rate == time * rate - x * rate;
  }

  lemma AgoIsDue(b: Bucket, u: real)
    requires Sound(b) && b.rate >= 1 && u >= b.lastRefill + 1.0 / b.rate as real
    ensures IsDue(b, u)
  {
    TimeOfOne(b.rate as real, u - b.lastRefill);
  }

  /** Take returns once the clock has advanced by the time of one token. */
  lemma TakeReturns(b: Bucket, clock: seq<real>)
    requires Sound(b) && b.rate >= 1 && clock != [] && Ticks(b.lastRefill, clock)
    requires clock[|clock| - 1] >= b.lastRefill + 1.0 / b.rate as real
    ensures Tries(b, clock).1 >= 1
  {
    AgoIsDue(b, clock[|clock| - 1]);
    TakesWhenDue(b, clock);
  }

  /** From a bucket at time s, the tokens taken up to t are bounded by what there is and what is refilled. */
  lemma {:induction false} TakenAreBounded(b: Bucket, s: real, clock: seq<real>, t: real)
    requires Sound(b) && b.lastRefill <= s && Ticks(s, clock) && Last(s, clock) <= t
    ensures s <= Last(s, clock)
    ensures var (b', n) := Tries(b, clock);
            Sound(b') && b'.rate == b.rate && b'.lastRefill <= Last(s, clock)
            && n as real <= Available(b, s) + Credit(b.rate, s, t)
    decreases |clock|
  {
    if clock == [] {
      AvailableGrows(b, s, t);
      CreditFacts(b.rate, s, s, t);
    } else {
      var u := clock[0];
      TryFacts(b, u);
      assert Last(u, clock[1..]) == Last(s, clock);
      TakenAreBounded(Try(b, u).0, u, clock[1..], t);
      TurnIsBounded(b, s, u, t, Tries(Try(b, u).0, clock[1..]).1);
    }
  }

  lemma IntervalIsBounded(b: Bucket, s: real, during: seq<real>, t: real)
    requires Sound(b) && b.lastRefill <= s && Ticks(s, during) && Last(s, during) <= t
    ensures Sound(Tries(b, during).0) && Tries(b, during).1 as real <= b.rate as real + Credit(b.rate, s, t)
  {
    TakenAreBounded(b, s, during, t);
    AvailableGrows(b, s, s);
  }

  /**
   * The rate bound: over any run of a new bucket, the calls that return in an interval from s to t are at most
   * the capacity and what the rate allows in that time; and the tokens stay between 0 and the capacity.
   */
  lemma RateIsBounded(rate: nat, start: real, before: seq<real>, s: real, during: seq<real>, t: real)
    requires Ticks(start, before) && Last(start, before) <= s && Ticks(s, during) && Last(s, during) <= t
    ensures var b := Tries(New(rate, start), before).0;
            Sound(b) && Sound(Tries(b, during).0)
            && Tries(b, during).1 as real <= rate as real + Credit(rate, s, t)
  {
    TakenAreBounded(New(rate, start), start, before, s);
    IntervalIsBounded(Tries(New(rate, start), before).0, s, during, t);
  }
}

/**
 The seed order of `ncaaSeedOrder`: order(n) replaces each seed s of order(n/2) by the pair
 (s, n+1-s). For a power of two the order is a permutation in which the top 2^j seeds sit
 exactly at the starts of the 2^j aligned blocks.
 */
module SeedOrder {
  import opened Common

  function NcaaSeedOrder(n: int): seq<int>
    decreases n
  {
    if n <= 1 then [1] else Doubled(NcaaSeedOrder(n / 2), n + 1)
  }

  /** Each seed s of `half` becomes the pair (s, sum - s). */
  function Doubled(half: seq<int>, sum: int): (order: seq<int>)
    ensures |order| == 2 * |half|
  {
    if half == [] then []
    else
      var last := |half| - 1;
      Doubled(half[..last], sum) + [half[last], sum - half[last]]
  }

  lemma {:induction false} DoubledAt(half: seq<int>, sum: int, i: nat)
    requires i < |half|
    ensures Doubled(half, sum)[2 * i] == half[i]
    ensures Doubled(half, sum)[2 * i + 1] == sum - half[i]
  {
    var last := |half| - 1;
    if i < last {
      DoubledAt(half[..last], sum, i);
    }
  }

  /** The append loop of the source. */
  method AppendPairs(half: seq<int>, sum: int) returns (out: seq<int>)
    ensures out == Doubled(half, sum)
  {
    out := [];
    for i := 0 to |half|
      invariant out == Doubled(half[..i], sum)
    {
      assert half[..i + 1][..i] == half[..i];
      out := out + [half[i], sum - half[i]];
    }
    assert half[..|half|] == half;
  }

  method ComputeSeedOrder(n: int) returns (out: seq<int>)
    ensures out == NcaaSeedOrder(n)
    decreases n
  {
    if n <= 1 {
      return [1];
    }
    var half := ComputeSeedOrder(n / 2);
    out := AppendPairs(half, n + 1);
  }

  // ---- powers of two ----

  /**
   The seed at one slot of a bracket of 2^k entries: even slots keep the seed of their half, odd
   slots complement it.
   */
  function SeedAt(k: nat, x: nat): (seed: nat)
    requires x < Pow2(k)
    ensures 1 <= seed <= Pow2(k)
  {
    if k == 0 then 1
    else if x % 2 == 0 then SeedAt(k - 1, x / 2)
    else Pow2(k) + 1 - SeedAt(k - 1, x / 2)
  }

  lemma {:induction false} OrderLength(k: nat)
    ensures |NcaaSeedOrder(Pow2(k))| == Pow2(k)
  {
    if k > 0 {
      OrderLength(k - 1);
      EvenSizeDoubles(Pow2(k - 1));
    }
  }

  /** Slot by slot, the order of a power of two is `SeedAt`. */
  lemma {:induction false} OrderIsSeedAt(k: nat, x: nat)
    requires x < Pow2(k)
    ensures |NcaaSeedOrder(Pow2(k))| == Pow2(k)
    ensures NcaaSeedOrder(Pow2(k))[x] == SeedAt(k, x)
  {
    OrderLength(k);
    if k > 0 {
      OrderIsSeedAt(k - 1, x / 2);
      EvenSizeDoubles(Pow2(k - 1));
      DoubledAt(NcaaSeedOrder(Pow2(k - 1)), Pow2(k) + 1, x / 2);
      assert x == 2 * (x / 2) || x == 2 * (x / 2) + 1;
    }
  }

  lemma EvenSizeDoubles(m: nat)
    requires m >= 1
    ensures NcaaSeedOrder(2 * m) == Doubled(NcaaSeedOrder(m), 2 * m + 1)
  {
    assert (2 * m) / 2 == m;
  }

  /** Round-one opponents sum to n+1, and the better of the two is the seed that order(n/2) puts there. */
  lemma PairsSumToSizePlusOne(k: nat, i: nat)
    requires k >= 1 && i < Pow2(k - 1)
    ensures 2 * i + 1 < Pow2(k)
    ensures SeedAt(k, 2 * i) + SeedAt(k, 2 * i + 1) == Pow2(k) + 1
    ensures SeedAt(k, 2 * i) < SeedAt(k, 2 * i + 1)
    ensures SeedAt(k - 1, i) == SeedAt(k, 2 * i)
  {
  }

  /** The same pair read off the source's list. */
  lemma OrderShowsPair(k: nat, i: nat)
    requires k >= 1 && i < Pow2(k - 1)
    ensures |NcaaSeedOrder(Pow2(k))| == Pow2(k) && 2 * i + 1 < Pow2(k)
    ensures NcaaSeedOrder(Pow2(k))[2 * i] == SeedAt(k - 1, i)
    ensures NcaaSeedOrder(Pow2(k))[2 * i + 1] == Pow2(k) + 1 - SeedAt(k - 1, i)
  {
    PairsSumToSizePlusOne(k, i);
    OrderIsSeedAt(k, 2 * i);
    OrderIsSeedAt(k, 2 * i + 1);
  }

  // ---- permutation ----

  /** The slot at which seed `s` stands. */
  function SlotOf(k: nat, s: int): nat
    requires 1 <= s <= Pow2(k)
  {
    if k == 0 then 0
    else if s <= Pow2(k - 1) then 2 * SlotOf(k - 1, s)
    else 2 * SlotOf(k - 1, Pow2(k) + 1 - s) + 1
  }

  /** The order is a permutation of 1..n: `SlotOf` is its two-sided inverse. */
  lemma {:induction false} SlotOfSeed(k: nat, s: int)
    requires 1 <= s <= Pow2(k)
    ensures SlotOf(k, s) < Pow2(k)
    ensures SeedAt(k, SlotOf(k, s)) == s
  {
    if k > 0 {
      SlotOfSeed(k - 1, if s <= Pow2(k - 1) then s else Pow2(k) + 1 - s);
    }
  }

  lemma {:induction false} SeedOfSlot(k: nat, x: nat)
    requires x < Pow2(k)
    ensures SlotOf(k, SeedAt(k, x)) == x
  {
    if k > 0 {
      SeedOfSlot(k - 1, x / 2);
    }
  }

  // ---- separation of the top seeds ----

  /** Seed `s` at slot `x` obeys the rule for blocks of length `b`. */
  ghost predicate HeadsBlock(j: nat, s: int, x: nat, b: nat)
    requires b >= 1
  {
    && (s <= Pow2(j) <==> x % b == 0)
    && x / b < Pow2(j)
    && (x % b == 0 ==> s == SeedAt(j, x / b))
  }

  /**
   The top 2^j seeds stand exactly at the multiples of the block length 2^d, in the order
   of the smaller bracket order(2^j).
   */
  lemma {:induction false} TopSeedsHeadBlocks(j: nat, d: nat, x: nat)
    requires x < Pow2(j + d)
    ensures HeadsBlock(j, SeedAt(j + d, x), x, Pow2(d))
    decreases d
  {
    if d > 0 {
      TopSeedsHeadBlocks(j, d - 1, x / 2);
      Pow2Grows(j, j + d - 1);
      BlockDoubles(j, SeedAt(j + d - 1, x / 2), SeedAt(j + d, x), x, Pow2(d - 1));
    }
  }

  lemma BlockDoubles(j: nat, kept: int, s: int, x: nat, b: nat)
    requires b >= 1 && HeadsBlock(j, kept, x / 2, b)
    requires if x % 2 == 0 then s == kept else s > Pow2(j)
    ensures HeadsBlock(j, s, x, 2 * b)
  {
    HalvingBlocks(x, b);
  }

  lemma HalvingBlocks(x: nat, b: nat)
    requires b >= 1
    ensures x / (2 * b) == (x / 2) / b
    ensures x % (2 * b) == 0 <==> x % 2 == 0 && (x / 2) % b == 0
  {
    var q, r := (x / 2) / b, (x / 2) % b;
    assert x == 2 * b * q + (2 * r + x % 2) by {
      assert x / 2 == b * q + r;
      assert 2 * (b * q) == 2 * b * q;
    }
    QuotientIs(x, 2 * b, q, 2 * r + x % 2);
  }

  lemma QuotientIs(x: nat, b: nat, q: nat, r: nat)
    requires b >= 1 && r < b && x == b * q + r
    ensures x / b == q && x % b == r
  {
    var z := q - x / b;
    assert b * z == x % b - r by {
      assert b * z == b * q - b * (x / b);
    }
    MultipleIsFar(b, z);
    MultipleIsFar(b, -z);
  }

  lemma MultipleIsFar(b: nat, z: int)
    ensures z >= 1 ==> b * z >= b
  {
  }

  /**
   Two different seeds among the top 2^j lie in different blocks of n/2^j slots, so they
   cannot meet before 2^j entries remain.
   */
  lemma TopSeedsApart(j: nat, d: nat, s: int, t: int)
    requires 1 <= s <= Pow2(j) && 1 <= t <= Pow2(j) && s != t
    ensures Pow2(j) <= Pow2(j + d)
    ensures SlotOf(j + d, s) / Pow2(d) != SlotOf(j + d, t) / Pow2(d)
  {
    Pow2Grows(j, j + d);
    SlotOfSeed(j + d, s);
    SlotOfSeed(j + d, t);
    TopSeedsHeadBlocks(j, d, SlotOf(j + d, s));
    TopSeedsHeadBlocks(j, d, SlotOf(j + d, t));
  }

  // ---- sizes that are not powers of two ----

  /** The length is the largest power of two not above n. */
  lemma {:induction false} OrderLengthAnySize(n: int) returns (k: nat)
    requires n >= 1
    ensures |NcaaSeedOrder(n)| == Pow2(k) && Pow2(k) <= n < 2 * Pow2(k)
    decreases n
  {
    if n == 1 {
      k := 0;
    } else {
      var k' := OrderLengthAnySize(n / 2);
      k := k' + 1;
    }
  }

  ghost predicate PowerOfTwo(n: int) {
    exists k: nat {:trigger Pow2(k)} :: n == Pow2(k)
  }

  ghost predicate NearPowerOfTwo(n: int) {
    PowerOfTwo(n) || PowerOfTwo(n - 1)
  }

  /** Between two consecutive powers of two there is no other. */
  lemma OnlyPowerInRange(n: int, k: nat)
    requires Pow2(k) <= n < 2 * Pow2(k)
    ensures PowerOfTwo(n) <==> n == Pow2(k)
  {
    if PowerOfTwo(n) {
      var m: nat :| n == Pow2(m);
      if m > k {
        Pow2Grows(k + 1, m);
      } else if m < k {
        Pow2Grows(m + 1, k);
      }
    }
  }

  /**
   Round one reads slots 0 .. 2*(n/2)-1 of the order. They all exist exactly when n is a
   power of two or one more than a power of two.
   */
  lemma RoundOneSlotsExist(n: int)
    requires n >= 2
    ensures 2 * (n / 2) <= |NcaaSeedOrder(n)| <==> NearPowerOfTwo(n)
  {
    var k := OrderLengthAnySize(n);
    OnlyPowerInRange(n, k);
    if n > Pow2(k) {
      OnlyPowerInRange(n - 1, k);
    } else {
      assert PowerOfTwo(n);
    }
  }

  // ---- every entry gets a slot ----

  /** Round one shows every seed 1..n: its slots exist and each seed stands on one of them. */
  ghost predicate RoundOneShowsAll(n: int)
    requires n >= 2
  {
    && 2 * (n / 2) <= |NcaaSeedOrder(n)|
    && forall s :: 1 <= s <= n ==> s in NcaaSeedOrder(n)[..2 * (n / 2)]
  }

  /** A sequence that contains 1..n has at least n elements. */
  lemma {:induction false} NeedsRoom(n: nat, order: seq<int>)
    requires forall s :: 1 <= s <= n ==> s in order
    ensures |order| >= n
  {
    if n > 0 {
      assert n in order;
      var i :| 0 <= i < |order| && order[i] == n;
      var rest := order[..i] + order[i + 1..];
      forall s | 1 <= s <= n - 1
        ensures s in rest
      {
        assert s in order;
        var j :| 0 <= j < |order| && order[j] == s;
        assert s == if j < i then rest[j] else rest[j - 1];
      }
      NeedsRoom(n - 1, rest);
    }
  }

  /** Every entry is placed exactly when the size is a power of two; one more drops the last entry. */
  lemma RoundOneShowsAllIff(n: int)
    requires n >= 2
    ensures RoundOneShowsAll(n) <==> PowerOfTwo(n)
  {
    var k := OrderLengthAnySize(n);
    OnlyPowerInRange(n, k);
    if n == Pow2(k) {
      PowerShowsAll(k);
    } else if RoundOneShowsAll(n) {
      NeedsRoom(n, NcaaSeedOrder(n)[..2 * (n / 2)]);
    }
  }

  lemma PowerShowsAll(k: nat)
    requires k >= 1
    ensures Pow2(k) >= 2 && RoundOneShowsAll(Pow2(k))
  {
    var order := NcaaSeedOrder(Pow2(k));
    OrderLength(k);
    assert order[..2 * (Pow2(k) / 2)] == order;
    forall s | 1 <= s <= Pow2(k)
      ensures s in order
    {
      SlotOfSeed(k, s);
      OrderIsSeedAt(k, SlotOf(k, s));
    }
  }

  /** Six entries: the order has four slots, round one asks for six. */
  lemma SixEntriesDoNotFit()
    ensures NcaaSeedOrder(6) == [1, 6, 3, 4] && !RoundOneShowsAll(6)
  {
    assert NcaaSeedOrder(1) == [1];
    assert NcaaSeedOrder(3) == [1, 3];
    assert NcaaSeedOrder(6) == [1, 6, 3, 4];
  }
}

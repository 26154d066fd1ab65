/**
 Laying out the rounds of a new bracket, for any size. The size is not checked by the source:
 a round-one slot beyond the seed order is an index out of range and ends the generation.
 */
module BracketLayout {
  import opened Common
  import opened SeedOrder
  import opened SeedLabels
  import opened Winner
  import opened Bracket

  /** The labels of the slots of round one: each seed with its entry, or with none. */
  function SlotTexts(seedOrder: seq<int>, entries: seq<string>): (texts: seq<string>)
    requires AllSeeds(seedOrder)
    ensures |texts| == |seedOrder|
  {
    if seedOrder == [] then []
    else
      var last := |seedOrder| - 1;
      SlotTexts(seedOrder[..last], entries) + [SeedText(entries, seedOrder[last])]
  }

  lemma {:induction false} SlotTextAt(seedOrder: seq<int>, entries: seq<string>, slot: nat)
    requires AllSeeds(seedOrder) && slot < |seedOrder|
    ensures SlotTexts(seedOrder, entries)[slot] == SeedText(entries, seedOrder[slot])
  {
    var last := |seedOrder| - 1;
    if slot < last {
      SlotTextAt(seedOrder[..last], entries, slot);
    }
  }

  predicate AllSeeds(seedOrder: seq<int>) {
    forall slot :: 0 <= slot < |seedOrder| ==> seedOrder[slot] >= 1
  }

  /** Matchup i of round one takes the slots 2i and 2i+1. */
  function SlotPair(texts: seq<string>, i: nat): Matchup
    requires 2 * i + 1 < |texts|
  {
    EmptySlot.(items := [Item(2 * i + 1, texts[2 * i], 0), Item(2 * i + 2, texts[2 * i + 1], 0)])
  }

  lemma {:induction false} SeedsInRange(n: int, slot: nat)
    requires n >= 1 && slot < |NcaaSeedOrder(n)|
    ensures 1 <= NcaaSeedOrder(n)[slot] <= n
    decreases n
  {
    if n > 1 {
      var half := NcaaSeedOrder(n / 2);
      assert NcaaSeedOrder(n) == Doubled(half, n + 1);
      SeedsInRange(n / 2, slot / 2);
      DoubledAt(half, n + 1, slot / 2);
    }
  }

  lemma OrderHasSeeds(n: int)
    ensures AllSeeds(NcaaSeedOrder(n))
  {
    if n >= 1 {
      forall slot | 0 <= slot < |NcaaSeedOrder(n)|
        ensures NcaaSeedOrder(n)[slot] >= 1
      {
        SeedsInRange(n, slot);
      }
    }
  }

  /** The number of rounds: the least power of two that covers the size. */
  ghost predicate RoundCount(size: int, t: nat) {
    size <= Pow2(t) && (t > 0 ==> Pow2(t - 1) < size)
  }

  /** Round one carries the labelled entries of its slots, and the later rounds are empty. */
  ghost predicate LaidOut(size: int, entries: seq<string>, table: seq<seq<Matchup>>) {
    && RoundCount(size, |table|)
    && AllSeeds(NcaaSeedOrder(size))
    && (table != [] ==> |table[0]| == size / 2 && Placed(SlotTexts(NcaaSeedOrder(size), entries), table[0]))
    && (forall r :: 1 <= r < |table| ==> EmptyRound(size, r + 1, table[r]))
  }

  ghost predicate Placed(texts: seq<string>, ms: seq<Matchup>) {
    2 * |ms| <= |texts| && forall i :: 0 <= i < |ms| ==> ms[i] == SlotPair(texts, i)
  }

  /** The round-one loop: positions 2i and 2i+1 of the seed order, labelled, until an index is out of range. */
  method FirstRoundMatchups(seedOrder: seq<int>, entries: seq<string>, count: nat, ghost texts: seq<string>)
    returns (ms: seq<Matchup>)
    requires AllSeeds(seedOrder) && texts == SlotTexts(seedOrder, entries)
    ensures |ms| == (if 2 * count <= |seedOrder| then count else |seedOrder| / 2) && Placed(texts, ms)
  {
    ms := [];
    while |ms| < count && 2 * |ms| + 1 < |seedOrder|
      invariant |ms| <= count && Placed(texts, ms)
    {
      var m := OpeningMatchup(seedOrder, entries, |ms|, texts);
      ms := ms + [m];
    }
  }

  method OpeningMatchup(seedOrder: seq<int>, entries: seq<string>, i: nat, ghost texts: seq<string>)
      returns (m: Matchup)
    requires AllSeeds(seedOrder) && texts == SlotTexts(seedOrder, entries) && 2 * i + 1 < |seedOrder|
    ensures m == SlotPair(texts, i)
  {
    SlotTextAt(seedOrder, entries, 2 * i);
    SlotTextAt(seedOrder, entries, 2 * i + 1);
    var textA := LabelSeed(seedOrder[2 * i], entries);
    var textB := LabelSeed(seedOrder[2 * i + 1], entries);
    m := EmptySlot.(items := [Item(2 * i + 1, textA, 0), Item(2 * i + 2, textB, 0)]);
  }

  /** A seed beyond the entries is labelled without a name. */
  method LabelSeed(seed: nat, entries: seq<string>) returns (text: string)
    requires seed >= 1
    ensures text == SeedText(entries, seed)
  {
    var entry := "";
    if seed - 1 < |entries| {
      entry := entries[seed - 1];
    }
    text := FormatSeedLabel(seed, entry);
  }

  /** How often the size is doubled up to: the loop over shifts. */
  method CountRounds(size: int) returns (totalRounds: nat)
    ensures RoundCount(size, totalRounds)
  {
    var slots := 1;
    totalRounds := 0;
    while slots < size
      invariant slots == Pow2(totalRounds) && (totalRounds > 0 ==> Pow2(totalRounds - 1) < size)
      decreases size - slots
    {
      totalRounds, slots := totalRounds + 1, 2 * slots;
    }
  }

  /** What is saved when an index of round one is out of range: the matchups before it. */
  ghost predicate CutShort(size: int, entries: seq<string>, table: seq<seq<Matchup>>) {
    && |table| == 1 && AllSeeds(NcaaSeedOrder(size))
    && |table[0]| == |NcaaSeedOrder(size)| / 2 < size / 2
    && Placed(SlotTexts(NcaaSeedOrder(size), entries), table[0])
  }

  /** Every round, with size / 2^round matchups in each, unless an index is out of range. */
  method GenerateRounds(size: int, entries: seq<string>) returns (table: seq<seq<Matchup>>, complete: bool)
    ensures complete <==> size < 2 || 2 * (size / 2) <= |NcaaSeedOrder(size)|
    ensures if complete then LaidOut(size, entries, table) else CutShort(size, entries, table)
  {
    var totalRounds := CountRounds(size);
    OrderHasSeeds(size);
    if totalRounds == 0 {
      return [], true;
    }
    var seedOrder := ComputeSeedOrder(size);
    var first := FirstRoundMatchups(seedOrder, entries, size / 2, SlotTexts(seedOrder, entries));
    if |first| < size / 2 {
      return [first], false;
    }
    var later := LaterRounds(size, totalRounds);
    return [first] + later, true;
  }

  ghost predicate EmptyRound(size: int, round: nat, ms: seq<Matchup>) {
    |ms| == size / Pow2(round) && forall i :: 0 <= i < |ms| ==> ms[i] == EmptySlot
  }

  /** The rounds after the first: empty matchups. */
  method LaterRounds(size: int, totalRounds: nat) returns (rounds: seq<seq<Matchup>>)
    requires size >= 0 && totalRounds >= 1
    ensures |rounds| == totalRounds - 1
    ensures forall r :: 0 <= r < |rounds| ==> EmptyRound(size, r + 2, rounds[r])
  {
    rounds := [];
    var slots := 2;
    for r := 1 to totalRounds
      invariant |rounds| == r - 1 && slots == Pow2(r)
      invariant forall s :: 0 <= s < r - 1 ==> EmptyRound(size, s + 2, rounds[s])
    {
      slots := 2 * slots;
      var ms := EmptyMatchups(size / slots);
      assert EmptyRound(size, r + 1, ms);
      rounds := rounds + [ms];
    }
  }

  method EmptyMatchups(count: nat) returns (ms: seq<Matchup>)
    ensures |ms| == count && forall i :: 0 <= i < |ms| ==> ms[i] == EmptySlot
  {
    ms := seq(count, _ => EmptySlot);
  }

  // ---- powers of two ----

  lemma {:induction false} Pow2Adds(a: nat, b: nat)
    ensures Pow2(a + b) == Pow2(a) * Pow2(b)
  {
    if a > 0 {
      Pow2Adds(a - 1, b);
    }
  }

  lemma Pow2Divides(k: nat, r: nat)
    requires r <= k
    ensures Pow2(k) / Pow2(r) == Pow2(k - r)
  {
    Pow2Adds(r, k - r);
    QuotientIs(Pow2(k), Pow2(r), Pow2(k - r), 0);
  }

  lemma RoundCountOfPower(k: nat, t: nat)
    requires RoundCount(Pow2(k), t)
    ensures t == k
  {
    if t < k {
      Pow2Grows(t + 1, k);
    } else if t > k {
      Pow2Grows(k, t - 1);
    }
  }

  lemma SlotTextIsLabel(k: nat, entries: seq<string>, slot: nat)
    requires slot < Pow2(k) && AllSeeds(NcaaSeedOrder(Pow2(k)))
    ensures |NcaaSeedOrder(Pow2(k))| == Pow2(k)
    ensures SlotTexts(NcaaSeedOrder(Pow2(k)), entries)[slot] == LabelFor(Labels(k, entries), SeedAt(k, slot))
  {
    OrderIsSeedAt(k, slot);
    SlotTextAt(NcaaSeedOrder(Pow2(k)), entries, slot);
    LabelOfSeed(k, entries, SeedAt(k, slot));
  }

  lemma LabelOfSeed(k: nat, entries: seq<string>, seed: nat)
    requires 1 <= seed <= Pow2(k)
    ensures LabelFor(Labels(k, entries), seed) == SeedText(entries, seed)
  {
  }

  /** A pair of slot texts that are seed labels is the generated matchup. */
  lemma PairIsSeeded(k: nat, labels: seq<string>, texts: seq<string>, i: nat)
    requires k >= 1 && i < Pow2(k - 1) && |texts| == Pow2(k)
    requires texts[2 * i] == LabelFor(labels, SeedAt(k, 2 * i))
    requires texts[2 * i + 1] == LabelFor(labels, SeedAt(k, 2 * i + 1))
    ensures SlotPair(texts, i) == FirstRound(k, labels)[i]
  {
  }

  lemma PlacedIsFirstRound(k: nat, labels: seq<string>, texts: seq<string>, ms: seq<Matchup>)
    requires k >= 1 && |ms| == Pow2(k - 1) && |texts| == Pow2(k) && Placed(texts, ms)
    requires forall slot: nat :: slot < Pow2(k) ==> texts[slot] == LabelFor(labels, SeedAt(k, slot))
    ensures ms == FirstRound(k, labels)
  {
    forall i | 0 <= i < |ms|
      ensures ms[i] == FirstRound(k, labels)[i]
    {
      PairIsSeeded(k, labels, texts, i);
    }
  }

  lemma FirstRoundOfPower(k: nat, entries: seq<string>, ms: seq<Matchup>)
    requires k >= 1 && AllSeeds(NcaaSeedOrder(Pow2(k))) && |ms| == Pow2(k - 1)
    requires Placed(SlotTexts(NcaaSeedOrder(Pow2(k)), entries), ms)
    ensures ms == FirstRound(k, Labels(k, entries))
  {
    var texts, labels := SlotTexts(NcaaSeedOrder(Pow2(k)), entries), Labels(k, entries);
    OrderLength(k);
    forall slot: nat | slot < Pow2(k)
      ensures texts[slot] == LabelFor(labels, SeedAt(k, slot))
    {
      SlotTextIsLabel(k, entries, slot);
    }
    PlacedIsFirstRound(k, labels, texts, ms);
  }

  /** For a power of two the layout is the one the whole-run results start from. */
  lemma LaidOutIsGenerated(k: nat, entries: seq<string>, table: seq<seq<Matchup>>)
    requires k >= 1 && LaidOut(Pow2(k), entries, table)
    ensures table == GeneratedRounds(k, entries)
  {
    RoundCountOfPower(k, |table|);
    Pow2Divides(k, 1);
    FirstRoundOfPower(k, entries, table[0]);
    forall r | 0 <= r < k
      ensures table[r] == GeneratedRound(k, Labels(k, entries), r)
    {
      if r >= 1 {
        LaterRoundOfPower(k, Labels(k, entries), r, table[r]);
      }
    }
  }

  lemma LaterRoundOfPower(k: nat, labels: seq<string>, r: nat, ms: seq<Matchup>)
    requires 1 <= r < k && EmptyRound(Pow2(k), r + 1, ms)
    ensures ms == GeneratedRound(k, labels, r)
  {
    Pow2Divides(k, r + 1);
  }
}

/**
 What an advance does to a bracket that satisfies the tree invariant: the seeds on the labels
 make every automatic decision succeed, so an advance fails exactly when a round is still open
 and nothing entitles it to decide, and otherwise it moves exactly one round.
 */
module BracketAdvance {
  import opened Common
  import opened SeedOrder
  import opened SeedLabels
  import opened Winner
  import opened Dedupe
  import opened Bracket
  import opened BracketTree

  // ---- every item comes from its own subtree ----

  ghost predicate StandsIn(k: nat, labels: seq<string>, text: string, r: nat, block: nat, slot: nat) {
    slot < Pow2(k) && slot / Pow2(r) == block && text == LabelFor(labels, SeedAt(k, slot))
  }

  /** The label was generated for a seed slot in the given block of 2^r slots. */
  ghost predicate FromBlock(k: nat, labels: seq<string>, text: string, r: nat, block: nat) {
    exists slot: nat :: StandsIn(k, labels, text, r, block, slot)
  }

  lemma DivideTwice(x: nat, b: nat)
    requires b >= 1
    ensures x / (2 * b) == (x / b) / 2
  {
    var q, r := x / b, x % b;
    var h, p := q / 2, q % 2;
    assert x == 2 * b * h + (p * b + r) by {
      assert x == b * q + r;
      assert b * q == b * (2 * h + p) == 2 * b * h + p * b;
    }
    assert p * b + r < 2 * b by {
      if p == 0 { assert p * b == 0; } else { assert p * b == b; }
    }
    QuotientIs(x, 2 * b, h, p * b + r);
  }

  lemma FromLargerBlock(k: nat, labels: seq<string>, text: string, r: nat, block: nat)
    requires FromBlock(k, labels, text, r, block)
    ensures FromBlock(k, labels, text, r + 1, block / 2)
  {
    var slot: nat :| StandsIn(k, labels, text, r, block, slot);
    DivideTwice(slot, Pow2(r));
    assert StandsIn(k, labels, text, r + 1, block / 2, slot);
  }

  /** A matchup whose items come from the two halves of a block. */
  ghost predicate FromHalves(k: nat, labels: seq<string>, m: Matchup, r: nat, i: nat) {
    && |m.items| == 2
    && FromBlock(k, labels, m.items[0].text, r, 2 * i)
    && FromBlock(k, labels, m.items[1].text, r, 2 * i + 1)
  }

  lemma SentFromHalves(k: nat, labels: seq<string>, m: Matchup, r: nat, i: nat)
    requires FromHalves(k, labels, m, r, i) && Live(m) && m.winner.Some?
    ensures FromBlock(k, labels, Sent(m), r + 1, i)
  {
    assert (2 * i) / 2 == i && (2 * i + 1) / 2 == i;
    if m.winner.value == m.items[0].id {
      FromLargerBlock(k, labels, m.items[0].text, r, 2 * i);
    } else {
      FromLargerBlock(k, labels, m.items[1].text, r, 2 * i + 1);
    }
  }

  lemma FedFromHalves(k: nat, labels: seq<string>, a: Matchup, b: Matchup, m: Matchup, r: nat, i: nat)
    requires FromHalves(k, labels, a, r, 2 * i) && FromHalves(k, labels, b, r, 2 * i + 1)
    requires Past(a) && Past(b) && Texts(m, Sent(a), Sent(b))
    ensures FromHalves(k, labels, m, r + 1, i)
  {
    SentFromHalves(k, labels, a, r, 2 * i);
    SentFromHalves(k, labels, b, r, 2 * i + 1);
  }

  lemma FirstRoundFromHalves(k: nat, labels: seq<string>, st: State, i: nat)
    requires Tree(k, labels, st) && i < |st.rounds[0]|
    ensures FromHalves(k, labels, st.rounds[0][i], 0, i)
  {
    var m := st.rounds[0][i];
    assert StandsIn(k, labels, m.items[0].text, 0, 2 * i, 2 * i);
    assert StandsIn(k, labels, m.items[1].text, 0, 2 * i + 1, 2 * i + 1);
  }

  lemma FedAt(k: nat, current: int, rounds: seq<seq<Matchup>>, r: nat, i: nat)
    requires Shape(k, rounds) && AllFed(k, current, rounds) && r + 1 < k && r + 1 < current && i < |rounds[r + 1]|
    ensures 2 * i + 1 < |rounds[r]| && Fed(rounds, r, i)
  {
    ChildrenExist(k, rounds, r, i);
  }

  lemma {:induction false} FedItemsFromSubtree(k: nat, labels: seq<string>, current: int, rounds: seq<seq<Matchup>>,
      r: nat, i: nat)
    requires Shape(k, rounds) && AllFed(k, current, rounds) && r < k && r < current && i < |rounds[r]|
    requires forall j: nat {:trigger rounds[0][j]} :: j < |rounds[0]| ==> FromHalves(k, labels, rounds[0][j], 0, j)
    ensures FromHalves(k, labels, rounds[r][i], r, i)
    decreases r
  {
    if r > 0 {
      var below := r - 1;
      FedAt(k, current, rounds, below, i);
      FedItemsFromSubtree(k, labels, current, rounds, below, 2 * i);
      FedItemsFromSubtree(k, labels, current, rounds, below, 2 * i + 1);
      FedFromHalves(k, labels, rounds[below][2 * i], rounds[below][2 * i + 1], rounds[r][i], below, i);
    }
  }

  /** The two items of matchup i in round r+1 come from the two halves of its subtree. */
  lemma ItemsFromSubtree(k: nat, labels: seq<string>, st: State, r: nat, i: nat)
    requires Tree(k, labels, st) && r < st.row.currentRound && i < |st.rounds[r]|
    ensures FromHalves(k, labels, st.rounds[r][i], r, i)
  {
    forall j: nat | j < |st.rounds[0]|
      ensures FromHalves(k, labels, st.rounds[0][j], 0, j)
    {
      FirstRoundFromHalves(k, labels, st, j);
    }
    FedItemsFromSubtree(k, labels, st.row.currentRound, st.rounds, r, i);
  }

  // ---- the tie-break always decides ----

  /** Every seed can be read back from its label. */
  ghost predicate Readable(k: nat, labels: seq<string>) {
    forall seed: nat :: 1 <= seed <= Pow2(k) ==> ParseSeedValue(LabelFor(labels, seed)) == Some(seed)
  }

  /** The bracket size fits the machine word, as it must to be stored. */
  ghost predicate SizeFits(k: nat) {
    Pow2(k) < 0x8000_0000_0000_0000
  }

  lemma PrintedLabelsAreReadable(k: nat, entries: seq<string>)
    requires SizeFits(k)
    ensures Readable(k, Labels(k, entries))
  {
    forall seed: nat | 1 <= seed <= Pow2(k)
      ensures ParseSeedValue(LabelFor(Labels(k, entries), seed)) == Some(seed)
    {
      ParseOfFormat(seed, EntryText(entries, seed));
    }
  }

  /** Two contenders always carry two different seeds. */
  lemma ContendersHaveDistinctSeeds(k: nat, labels: seq<string>, st: State, r: nat, i: nat)
    requires Tree(k, labels, st) && Readable(k, labels) && r < st.row.currentRound && i < |st.rounds[r]|
    ensures |st.rounds[r][i].items| == 2
    ensures var a, b := ParseSeedValue(st.rounds[r][i].items[0].text), ParseSeedValue(st.rounds[r][i].items[1].text);
            a.Some? && b.Some? && a != b
  {
    ItemsFromSubtree(k, labels, st, r, i);
    var m := st.rounds[r][i];
    var x: nat :| StandsIn(k, labels, m.items[0].text, r, 2 * i, x);
    var y: nat :| StandsIn(k, labels, m.items[1].text, r, 2 * i + 1, y);
    SeedOfSlot(k, x);
    SeedOfSlot(k, y);
  }

  /** A current matchup can always be decided, and deciding it keeps its labels and any winner it has. */
  lemma CurrentIsDecidable(k: nat, labels: seq<string>, st: State, i: nat)
    requires Tree(k, labels, st) && Readable(k, labels) && i < |st.rounds[st.row.currentRound - 1]|
    ensures var m := st.rounds[st.row.currentRound - 1][i];
            Live(m) && Finalize(m).Ok? && Past(Finalize(m).value) && SameTexts(m, Finalize(m).value)
  {
    var c := st.row.currentRound;
    var m := st.rounds[c - 1][i];
    assert Fits(c, c, m);
    if !Decided(m) {
      ContendersHaveDistinctSeeds(k, labels, st, c - 1, i);
      assert m.items == [m.items[0], m.items[1]];
      TwoContenders(m.items[0], m.items[1]);
    }
  }

  // ---- lists of matchups ----

  lemma {:induction false} FinalizeAllDecides(ms: seq<Matchup>)
    requires forall i :: 0 <= i < |ms| ==> Finalize(ms[i]).Ok?
    ensures FinalizeAll(ms).Ok?
    ensures forall i :: 0 <= i < |ms| ==> FinalizeAll(ms).value[i] == Finalize(ms[i]).value
  {
    if ms != [] {
      FinalizeAllDecides(ms[..|ms| - 1]);
    }
  }

  lemma {:induction false} DedupeAllChangesNothing(ms: seq<Matchup>)
    requires forall i :: 0 <= i < |ms| ==> |ms[i].items| <= 2
    ensures DedupeAll(ms) == Ok(ms)
  {
    if ms != [] {
      DedupeAllChangesNothing(ms[..|ms| - 1]);
      PairsAreKept(ms[|ms| - 1].items, ms[|ms| - 1].winner);
      assert ms == ms[..|ms| - 1] + [ms[|ms| - 1]];
    }
  }

  /** The winners of a list are available exactly when every matchup is completed. */
  lemma {:induction false} CollectWinnersNeedsCompleted(ms: seq<Matchup>)
    requires forall i :: 0 <= i < |ms| ==> Live(ms[i])
    ensures CollectWinners(ms).Ok? <==> AllCompleted(ms)
    ensures CollectWinners(ms).Err? ==> CollectWinners(ms) == Err(NotCompleted)
    ensures CollectWinners(ms).Ok? ==> Sends(ms, CollectWinners(ms).value)
  {
    if ms != [] {
      var last := ms[|ms| - 1];
      CollectWinnersNeedsCompleted(ms[..|ms| - 1]);
      if last.status == Completed {
        SentIsWinnerText(last);
      }
    }
  }

  // ---- the current round before and after resolution ----

  ghost predicate Refines(was: seq<Matchup>, now: seq<Matchup>) {
    |now| == |was| && forall i :: 0 <= i < |was| ==>
      Live(now[i]) && SameTexts(was[i], now[i]) && (Decided(was[i]) ==> now[i] == was[i])
  }

  lemma AllDecided(k: nat, labels: seq<string>, st: State)
    requires Tree(k, labels, st) && Readable(k, labels)
    ensures var current := st.rounds[st.row.currentRound - 1];
            && current != [] && DedupeAll(current) == Ok(current) && Refines(current, current)
            && FinalizeAll(current).Ok? && Refines(current, FinalizeAll(current).value)
            && forall i :: 0 <= i < |current| ==> Past(FinalizeAll(current).value[i])
  {
    var current := st.rounds[st.row.currentRound - 1];
    forall i | 0 <= i < |current|
      ensures Live(current[i]) && Finalize(current[i]).Ok?
      ensures Past(Finalize(current[i]).value) && SameTexts(current[i], Finalize(current[i]).value)
    {
      CurrentIsDecidable(k, labels, st, i);
    }
    DedupeAllChangesNothing(current);
    FinalizeAllDecides(current);
  }

  lemma ReplaceCurrentKeepsTree(k: nat, labels: seq<string>, st: State, current: seq<Matchup>)
    requires Tree(k, labels, st) && Refines(st.rounds[st.row.currentRound - 1], current)
    ensures Tree(k, labels, st.(rounds := st.rounds[st.row.currentRound - 1 := current]))
  {
    CarryKeepsTree(k, labels, st, st.row, st.rounds[st.row.currentRound - 1 := current]);
  }

  /** The winners of the current round, ready to be sent on. */
  ghost predicate Sends(current: seq<Matchup>, winners: seq<string>) {
    |winners| == |current| && forall i :: 0 <= i < |current| ==> Past(current[i]) && winners[i] == Sent(current[i])
  }

  /** The state after filling the next round and moving the round counter, before the sync. */
  ghost function Filled(st: State, winners: seq<string>): State
    requires 1 <= st.row.currentRound < |st.rounds| && |winners| == 2 * |st.rounds[st.row.currentRound]|
  {
    var c := st.row.currentRound;
    State(st.row.(currentRound := c + 1), st.rounds[c := Populate(st.rounds[c], winners, st.nextItemId)],
          st.nextItemId + 2 * |st.rounds[c]|)
  }

  lemma FilledMatchupFits(k: nat, labels: seq<string>, st: State, winners: seq<string>, r: nat, i: nat)
    requires Tree(k, labels, st) && st.row.currentRound < k
    requires Sends(st.rounds[st.row.currentRound - 1], winners)
    requires |winners| == 2 * |st.rounds[st.row.currentRound]|
    requires r < k && i < |st.rounds[r]|
    ensures Fits(st.row.currentRound + 1, r + 1, Filled(st, winners).rounds[r][i])
  {
    assert Fits(st.row.currentRound, r + 1, st.rounds[r][i]);
  }

  lemma FilledFits(k: nat, labels: seq<string>, st: State, winners: seq<string>)
    requires Tree(k, labels, st) && st.row.currentRound < k
    requires Sends(st.rounds[st.row.currentRound - 1], winners)
    ensures |winners| == 2 * |st.rounds[st.row.currentRound]|
    ensures AllFit(st.row.currentRound + 1, Filled(st, winners).rounds)
  {
    var c := st.row.currentRound;
    ChildrenExist(k, st.rounds, c - 1, 0);
    var rounds' := Filled(st, winners).rounds;
    forall r, i | 0 <= r < k && 0 <= i < |rounds'[r]|
      ensures Fits(c + 1, r + 1, rounds'[r][i])
    {
      FilledMatchupFits(k, labels, st, winners, r, i);
    }
  }

  /** Filling the next round and moving the round counter keeps the tree. */
  lemma FilledKeepsTree(k: nat, labels: seq<string>, st: State, winners: seq<string>)
    requires Tree(k, labels, st) && st.row.currentRound < k
    requires Sends(st.rounds[st.row.currentRound - 1], winners)
    ensures |winners| == 2 * |st.rounds[st.row.currentRound]|
    ensures Tree(k, labels, Filled(st, winners))
  {
    FilledFits(k, labels, st, winners);
    var c := st.row.currentRound;
    var rounds' := Filled(st, winners).rounds;
    forall r: nat, j: nat | r + 1 < k && r + 1 < c + 1 && j < |rounds'[r + 1]|
      ensures 2 * j + 1 < |rounds'[r]| && Fed(rounds', r, j)
    {
      ChildrenExist(k, st.rounds, r, j);
      if r + 1 < c {
        assert Fed(st.rounds, r, j);
      }
    }
  }

  // ---- the outcome of an advance ----

  ghost predicate AllCompleted(ms: seq<Matchup>) {
    forall i :: 0 <= i < |ms| ==> ms[i].status == Completed
  }

  ghost predicate MayAdvance(st: State, now: int)
    requires 1 <= st.row.currentRound <= |st.rounds|
  {
    || AutoFinalizes(st.row, now)
    || st.row.currentRound == |st.rounds|
    || AllCompleted(st.rounds[st.row.currentRound - 1])
  }

  lemma ResolvedFrom(st: State, current: seq<Matchup>, now: int)
    requires 1 <= st.row.currentRound <= |st.rounds| && current == st.rounds[st.row.currentRound - 1] && current != []
    requires DedupeAll(current) == Ok(current) && FinalizeAll(current).Ok?
    ensures ResolvedRound(st, now) == Ok(if AutoFinalizes(st.row, now) then FinalizeAll(current).value else current)
  {
  }

  /** `current` is what a round becomes before an advance collects its winners. */
  ghost predicate ResolvesTo(was: seq<Matchup>, current: seq<Matchup>, auto: bool) {
    && Refines(was, current)
    && (if auto then FinalizeAll(was) == Ok(current) && forall i :: 0 <= i < |current| ==> Past(current[i])
        else current == was)
  }

  lemma ResolvedOutcome(k: nat, labels: seq<string>, st: State, now: int) returns (current: seq<Matchup>)
    requires Tree(k, labels, st) && Readable(k, labels)
    ensures ResolvedRound(st, now) == Ok(current)
    ensures ResolvesTo(st.rounds[st.row.currentRound - 1], current, AutoFinalizes(st.row, now))
  {
    var was := st.rounds[st.row.currentRound - 1];
    AllDecided(k, labels, st);
    ResolvedFrom(st, was, now);
    current := if AutoFinalizes(st.row, now) then FinalizeAll(was).value else was;
  }

  lemma NextRoundIsEmpty(k: nat, labels: seq<string>, st: State)
    requires Tree(k, labels, st)
    ensures !Populated(NextRound(st))
    ensures NextRound(st) == [] <==> st.row.currentRound == k
  {
    var c := st.row.currentRound;
    if c < k {
      forall i | 0 <= i < |st.rounds[c]|
        ensures st.rounds[c][i].items == []
      {
        assert Fits(c, c + 1, st.rounds[c][i]);
      }
    }
  }

  lemma AdvanceIsAdvanceFinal(st: State, current: seq<Matchup>, now: int)
    requires ResolvedRound(st, now) == Ok(current) && NextRound(st) == []
    ensures Advance(st, now) == AdvanceFinal(st, current, now)
  {
  }

  lemma LastAdvanceIsAdvanceFinal(k: nat, labels: seq<string>, st: State, now: int) returns (current: seq<Matchup>)
    requires Tree(k, labels, st) && Readable(k, labels) && st.row.currentRound == k
    ensures ResolvesTo(st.rounds[st.row.currentRound - 1], current, AutoFinalizes(st.row, now))
    ensures Advance(st, now) == AdvanceFinal(st, current, now)
  {
    current := ResolvedOutcome(k, labels, st, now);
    NextRoundIsEmpty(k, labels, st);
    AdvanceIsAdvanceFinal(st, current, now);
  }

  /** The last round can always be decided, and deciding it keeps the tree. */
  lemma FinalRoundDecides(k: nat, labels: seq<string>, st: State, current: seq<Matchup>) returns (done: seq<Matchup>)
    requires Tree(k, labels, st) && Readable(k, labels) && st.row.currentRound == k
    requires Refines(st.rounds[k - 1], current)
    ensures FinalizeAll(current) == Ok(done) && Refines(st.rounds[k - 1], done)
    ensures |done| == 1 && Past(done[0])
    ensures Tree(k, labels, st.(rounds := st.rounds[k - 1 := done]))
  {
    ReplaceCurrentKeepsTree(k, labels, st, current);
    AllDecided(k, labels, st.(rounds := st.rounds[k - 1 := current]));
    done := FinalizeAll(current).value;
    ReplaceCurrentKeepsTree(k, labels, st, done);
  }

  lemma AdvanceFinalState(st: State, current: seq<Matchup>, done: seq<Matchup>, now: int)
    requires 1 <= st.row.currentRound <= |st.rounds| && FinalizeAll(current) == Ok(done)
    ensures AdvanceFinal(st, current, now) ==
            Ok(st.(row := st.row.(status := "completed", completedAt := Some(now)),
                   rounds := st.rounds[st.row.currentRound - 1 := done]))
  {
  }

  /** The last round always completes the bracket, whatever the mode and the clock. */
  lemma FinalAdvance(k: nat, labels: seq<string>, st: State, now: int)
    requires Tree(k, labels, st) && Readable(k, labels) && st.row.currentRound == k
    ensures Advance(st, now).Ok?
    ensures var st' := Advance(st, now).value;
            && Tree(k, labels, st')
            && st'.row == st.row.(status := "completed", completedAt := Some(now)) && st'.nextItemId == st.nextItemId
            && st'.rounds == st.rounds[k - 1 := st'.rounds[k - 1]]
            && Refines(st.rounds[k - 1], st'.rounds[k - 1])
            && |st'.rounds[k - 1]| == 1 && Past(st'.rounds[k - 1][0])
  {
    var current := LastAdvanceIsAdvanceFinal(k, labels, st, now);
    var done := FinalRoundDecides(k, labels, st, current);
    AdvanceFinalState(st, current, done, now);
    SyncFreeRow(k, labels, st.(rounds := st.rounds[k - 1 := done]),
        st.row.(status := "completed", completedAt := Some(now)));
  }

  /** The invariant reads only the round number of the bracket row. */
  lemma SyncFreeRow(k: nat, labels: seq<string>, st: State, row: Row)
    requires Tree(k, labels, st) && row.currentRound == st.row.currentRound
    ensures Tree(k, labels, st.(row := row))
  {
  }

  /** Moving on from a resolved round keeps the tree. */
  lemma AdvanceOneKeepsTree(k: nat, labels: seq<string>, st: State, current: seq<Matchup>, now: int)
    requires Tree(k, labels, st) && st.row.currentRound < k
    requires Refines(st.rounds[st.row.currentRound - 1], current) && AllCompleted(current)
    ensures AdvanceOne(st, current, now).Ok?
    ensures Tree(k, labels, AdvanceOne(st, current, now).value)
  {
    var c := st.row.currentRound;
    CollectWinnersNeedsCompleted(current);
    var winners := CollectWinners(current).value;
    var resolved := st.(rounds := st.rounds[c - 1 := current]);
    ReplaceCurrentKeepsTree(k, labels, st, current);
    FilledKeepsTree(k, labels, resolved, winners);
    SyncKeepsTree(k, labels, Filled(resolved, winners), RoundWindow(st.row.(currentRound := c + 1), now));
  }

  /** An advance keeps every matchup that was already decided. */
  lemma AdvanceOneKeepsDecided(k: nat, labels: seq<string>, st: State, current: seq<Matchup>, now: int, r: nat, i: nat)
    requires Tree(k, labels, st) && st.row.currentRound < k
    requires Refines(st.rounds[st.row.currentRound - 1], current) && AdvanceOne(st, current, now).Ok?
    requires r < st.row.currentRound && i < |st.rounds[r]| && Decided(st.rounds[r][i])
    ensures i < |AdvanceOne(st, current, now).value.rounds[r]|
    ensures AdvanceOne(st, current, now).value.rounds[r][i] == st.rounds[r][i]
  {
  }

  lemma AdvanceIsAdvanceOne(st: State, current: seq<Matchup>, now: int)
    requires ResolvedRound(st, now) == Ok(current) && !Populated(NextRound(st)) && NextRound(st) != []
    ensures Advance(st, now) == AdvanceOne(st, current, now)
  {
  }

  lemma EarlierAdvanceIsAdvanceOne(k: nat, labels: seq<string>, st: State, now: int) returns (current: seq<Matchup>)
    requires Tree(k, labels, st) && Readable(k, labels) && st.row.currentRound < k
    ensures ResolvesTo(st.rounds[st.row.currentRound - 1], current, AutoFinalizes(st.row, now))
    ensures Advance(st, now) == AdvanceOne(st, current, now)
  {
    current := ResolvedOutcome(k, labels, st, now);
    NextRoundIsEmpty(k, labels, st);
    AdvanceIsAdvanceOne(st, current, now);
  }

  lemma AdvanceOneRow(st: State, current: seq<Matchup>, now: int)
    requires 1 <= st.row.currentRound < |st.rounds| && AdvanceOne(st, current, now).Ok?
    ensures AdvanceOne(st, current, now).value.row == RoundWindow(st.row.(currentRound := st.row.currentRound + 1), now)
  {
  }

  lemma AdvanceOneNeedsWinners(st: State, current: seq<Matchup>, now: int)
    requires 1 <= st.row.currentRound < |st.rounds| && CollectWinners(current) == Err(NotCompleted)
    ensures AdvanceOne(st, current, now) == Err(NotCompleted)
  {
  }

  /** Any other round advances exactly when it may, and the only error is an open matchup. */
  lemma EarlierAdvance(k: nat, labels: seq<string>, st: State, now: int)
    requires Tree(k, labels, st) && Readable(k, labels) && st.row.currentRound < k
    ensures Advance(st, now).Ok? <==> MayAdvance(st, now)
    ensures Advance(st, now).Err? ==> Advance(st, now) == Err(NotCompleted)
    ensures Advance(st, now).Ok? ==>
              && Tree(k, labels, Advance(st, now).value)
              && Advance(st, now).value.row == RoundWindow(st.row.(currentRound := st.row.currentRound + 1), now)
  {
    var current := EarlierAdvanceIsAdvanceOne(k, labels, st, now);
    CollectWinnersNeedsCompleted(current);
    if AllCompleted(current) {
      AdvanceOneKeepsTree(k, labels, st, current, now);
      AdvanceOneRow(st, current, now);
    } else {
      AdvanceOneNeedsWinners(st, current, now);
    }
  }
}

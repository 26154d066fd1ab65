/**
 What an advance leaves behind, read off the fields: who wins each matchup and who goes on, and
 where each entry of a new bracket stands.
 */
module BracketOutcome {
  import opened Common
  import opened SeedOrder
  import opened SeedLabels
  import opened Winner
  import opened Bracket
  import opened BracketTree
  import opened BracketAdvance
  import opened BracketRuns
  import opened BracketRequests

  // ---- who wins ----

  /** Of two items, number `w` has more votes, or as many and the lower seed. */
  ghost predicate Beats(m: Matchup, w: int) {
    && |m.items| == 2 && 0 <= w < 2
    && var a, b := m.items[w], m.items[1 - w];
       && ParseSeedValue(a.text).Some? && ParseSeedValue(b.text).Some?
       && (a.votes > b.votes
           || (a.votes == b.votes && ParseSeedValue(a.text).value < ParseSeedValue(b.text).value))
  }

  /** A decided matchup is kept; any other is crowned by votes and then by seed. */
  ghost predicate Judged(m: Matchup, m': Matchup) {
    if Decided(m) then m' == m else exists w :: Beats(m, w) && Crowned(m, m', m.items[w].id)
  }

  lemma FinalizeJudges(k: nat, labels: seq<string>, st: State, i: nat)
    requires Tree(k, labels, st) && Readable(k, labels) && i < |st.rounds[st.row.currentRound - 1]|
    ensures var m := st.rounds[st.row.currentRound - 1][i];
            Live(m) && Finalize(m).Ok? && Judged(m, Finalize(m).value)
  {
    var c := st.row.currentRound;
    var m := st.rounds[c - 1][i];
    CurrentIsDecidable(k, labels, st, i);
    if !Decided(m) {
      ContendersHaveDistinctSeeds(k, labels, st, c - 1, i);
      assert m.items == [m.items[0], m.items[1]];
      TwoContenders(m.items[0], m.items[1]);
      var w := if AdvanceWinner(m.items) == Ok(m.items[0].id) then 0 else 1;
      assert Beats(m, w);
    }
  }

  ghost predicate AllJudged(was: seq<Matchup>, now: seq<Matchup>) {
    |now| == |was| && forall i :: 0 <= i < |was| ==> Judged(was[i], now[i])
  }

  /** The round that an advance leaves is judged. */
  ghost predicate RoundJudged(st: State, st': State) {
    && 1 <= st.row.currentRound <= |st.rounds| == |st'.rounds|
    && AllJudged(st.rounds[st.row.currentRound - 1], st'.rounds[st.row.currentRound - 1])
  }

  lemma FinalizeAllJudges(k: nat, labels: seq<string>, st: State)
    requires Tree(k, labels, st) && Readable(k, labels)
    ensures FinalizeAll(st.rounds[st.row.currentRound - 1]).Ok?
    ensures AllJudged(st.rounds[st.row.currentRound - 1], FinalizeAll(st.rounds[st.row.currentRound - 1]).value)
  {
    var was := st.rounds[st.row.currentRound - 1];
    forall i | 0 <= i < |was|
      ensures Finalize(was[i]).Ok? && Judged(was[i], Finalize(was[i]).value)
    {
      FinalizeJudges(k, labels, st, i);
    }
    FinalizeAllDecides(was);
  }

  lemma DecidedIsJudged(was: seq<Matchup>)
    requires forall i :: 0 <= i < |was| ==> Decided(was[i])
    ensures AllJudged(was, was)
  {
  }

  /** What an advance makes of the current round before it collects the winners. */
  lemma ResolvedIsJudged(k: nat, labels: seq<string>, st: State, current: seq<Matchup>, auto: bool)
    requires Tree(k, labels, st) && Readable(k, labels)
    requires ResolvesTo(st.rounds[st.row.currentRound - 1], current, auto)
    requires auto || AllCompleted(current)
    ensures AllJudged(st.rounds[st.row.currentRound - 1], current) && AllCompleted(current)
  {
    if auto {
      FinalizeAllJudges(k, labels, st);
    } else {
      DecidedIsJudged(current);
    }
  }

  /** The table after moving on: the rounds up to the resolved one are closed. */
  lemma AdvanceOneCloses(st: State, current: seq<Matchup>, now: int)
    requires 1 <= st.row.currentRound < |st.rounds| && AdvanceOne(st, current, now).Ok?
    ensures CollectWinners(current).Ok?
    ensures var st', c := AdvanceOne(st, current, now).value, st.row.currentRound;
            |st'.rounds| == |st.rounds| && Closed(current, st'.rounds[c - 1])
  {
  }

  ghost predicate Closed(ms: seq<Matchup>, ms': seq<Matchup>) {
    |ms'| == |ms| && forall i :: 0 <= i < |ms| ==> ms'[i] == ms[i].(status := Completed)
  }

  lemma ClosedIsSame(ms: seq<Matchup>, ms': seq<Matchup>)
    requires Closed(ms, ms') && AllCompleted(ms)
    ensures ms' == ms
  {
  }

  lemma ResolvedIsKept(k: nat, labels: seq<string>, st: State, current: seq<Matchup>, now: int)
    requires Tree(k, labels, st) && Readable(k, labels) && st.row.currentRound < k
    requires ResolvesTo(st.rounds[st.row.currentRound - 1], current, AutoFinalizes(st.row, now))
    requires AdvanceOne(st, current, now).Ok?
    ensures RoundJudged(st, AdvanceOne(st, current, now).value)
  {
    AdvanceOneCloses(st, current, now);
    CollectWinnersNeedsCompleted(current);
    ResolvedIsJudged(k, labels, st, current, AutoFinalizes(st.row, now));
    ClosedIsSame(current, AdvanceOne(st, current, now).value.rounds[st.row.currentRound - 1]);
  }

  lemma EarlierJudges(k: nat, labels: seq<string>, st: State, now: int)
    requires Tree(k, labels, st) && Readable(k, labels) && st.row.currentRound < k && Advance(st, now).Ok?
    ensures RoundJudged(st, Advance(st, now).value)
  {
    var current := EarlierAdvanceIsAdvanceOne(k, labels, st, now);
    ResolvedIsKept(k, labels, st, current, now);
  }

  lemma FinalRoundJudges(k: nat, labels: seq<string>, st: State, current: seq<Matchup>, auto: bool)
    requires Tree(k, labels, st) && Readable(k, labels) && st.row.currentRound == k
    requires ResolvesTo(st.rounds[k - 1], current, auto)
    ensures FinalizeAll(current).Ok? && AllJudged(st.rounds[k - 1], FinalizeAll(current).value)
  {
    FinalizeAllJudges(k, labels, st);
    if auto {
      FinalizeAllKeepsDecided(current);
    }
  }

  lemma {:induction false} FinalizeAllKeepsDecided(ms: seq<Matchup>)
    requires forall i :: 0 <= i < |ms| ==> Decided(ms[i])
    ensures FinalizeAll(ms) == Ok(ms)
  {
    if ms != [] {
      FinalizeAllKeepsDecided(ms[..|ms| - 1]);
      assert ms == ms[..|ms| - 1] + [ms[|ms| - 1]];
    }
  }

  lemma FinalJudges(k: nat, labels: seq<string>, st: State, now: int)
    requires Tree(k, labels, st) && Readable(k, labels) && st.row.currentRound == k
    ensures Advance(st, now).Ok? && RoundJudged(st, Advance(st, now).value)
  {
    var current := LastAdvanceIsAdvanceFinal(k, labels, st, now);
    FinalRoundJudges(k, labels, st, current, AutoFinalizes(st.row, now));
    AdvanceFinalState(st, current, FinalizeAll(current).value, now);
  }

  /** Every matchup of the round that is left: decided ones as they were, the others won by votes and then by seed. */
  lemma AdvanceJudges(k: nat, labels: seq<string>, st: State, now: int)
    requires Tree(k, labels, st) && Readable(k, labels) && Advance(st, now).Ok?
    ensures RoundJudged(st, Advance(st, now).value)
  {
    if st.row.currentRound == k {
      FinalJudges(k, labels, st, now);
    } else {
      EarlierJudges(k, labels, st, now);
    }
  }

  // ---- who goes on ----

  /** The item that won a matchup stands, by its label, in its half of the matchup that follows. */
  lemma WinnerGoesOn(k: nat, labels: seq<string>, st: State, r: nat, i: nat)
    requires Tree(k, labels, st) && r + 1 < st.row.currentRound && i < |st.rounds[r]|
    ensures i / 2 < |st.rounds[r + 1]| && |st.rounds[r + 1][i / 2].items| == 2
    ensures exists x :: && x in st.rounds[r][i].items && st.rounds[r][i].winner == Some(x.id)
                        && st.rounds[r + 1][i / 2].items[i % 2].text == x.text
  {
    ChildrenExist(k, st.rounds, r, 0);
    FedAt(k, st.row.currentRound, st.rounds, r, i / 2);
    assert i == 2 * (i / 2) + i % 2;
    var m := st.rounds[r][i];
    var x := if m.winner.value == m.items[0].id then m.items[0] else m.items[1];
    assert x in m.items;
  }

  lemma AdvanceOneFills(st: State, current: seq<Matchup>, now: int, i: nat, j: nat)
    requires 1 <= st.row.currentRound < |st.rounds| && AdvanceOne(st, current, now).Ok?
    requires i < |st.rounds[st.row.currentRound]| && j < 2
    ensures var st', c := AdvanceOne(st, current, now).value, st.row.currentRound;
            && |st'.rounds| == |st.rounds| && |st'.rounds[c]| == |st.rounds[c]|
            && |st'.rounds[c][i].items| == 2 && st'.rounds[c][i].winner == st.rounds[c][i].winner
            && st'.rounds[c][i].items[j].votes == 0 && st'.rounds[c][i].items[j].id == st.nextItemId + 2 * i + j
            && st'.nextItemId == st.nextItemId + 2 * |st.rounds[c]|
  {
  }

  /** Those who go on start without votes, under new ids. */
  lemma NextRoundIsFresh(k: nat, labels: seq<string>, st: State, st': State, now: int, i: nat, j: nat)
    requires Tree(k, labels, st) && Readable(k, labels) && st.row.currentRound < k && Advance(st, now) == Ok(st')
    requires i < |st.rounds[st.row.currentRound]| && j < 2
    ensures |st'.rounds| == k && |st'.rounds[st.row.currentRound]| == |st.rounds[st.row.currentRound]|
    ensures var m := st'.rounds[st.row.currentRound][i];
            |m.items| == 2 && m.winner == None && m.items[j].votes == 0
            && st.nextItemId <= m.items[j].id == st.nextItemId + 2 * i + j < st'.nextItemId
  {
    var c := st.row.currentRound;
    var current := EarlierAdvanceIsAdvanceOne(k, labels, st, now);
    assert Fits(c, c + 1, st.rounds[c][i]);
    AdvanceOneFills(st, current, now, i, j);
  }

  /** A resolved tie: the item that the owner names wins the matchup, whatever the advance then does. */
  lemma ResolveTieCrowns(k: nat, labels: seq<string>, st: State, round: int, i: int, winner: nat, now: int)
    requires Tree(k, labels, st) && Readable(k, labels)
    ensures var st' := ResolveTie(st, round, i, winner, now);
            if InPlay(st, round, i) && Offers(st.rounds[round - 1][i], winner)
            then round <= |st'.rounds| && i < |st'.rounds[round - 1]|
              && Crowned(st.rounds[round - 1][i], st'.rounds[round - 1][i], winner)
            else st' == st
  {
    if InPlay(st, round, i) {
      OffersIsHasId(st.rounds[round - 1][i], winner);
      if Offers(st.rounds[round - 1][i], winner) {
        var chosen := WithMatchup(st, round, i, Stamp(st.rounds[round - 1][i], winner));
        StampKeepsTree(k, labels, st, round, i, winner);
        if Advance(chosen, now).Ok? {
          AdvanceKeepsDecided(k, labels, chosen, Advance(chosen, now).value, now, round - 1, i);
        }
      }
    }
  }

  /** The text is that of the winner among the items or, without a winner, of the one with more votes of two. */
  ghost predicate SendsOn(m: Matchup, text: string) {
    match m.winner
    case Some(id) => exists x :: x in m.items && x.id == id && x.text == text
    case None =>
      && |m.items| == 2
      && exists w :: 0 <= w < 2 && m.items[w].votes > m.items[1 - w].votes && m.items[w].text == text
  }

  lemma {:induction false} ItemTextIsOwn(items: seq<Item>, id: nat)
    ensures match ItemText(items, id)
            case Some(text) => exists x :: x in items && x.id == id && x.text == text
            case None => forall x :: x in items ==> x.id != id
  {
    if items != [] {
      ItemTextIsOwn(items[1..], id);
      assert items == [items[0]] + items[1..];
      assert items[0] in items;
    }
  }

  /** What a matchup sends on, in any state; when there is no such label the advance fails. */
  lemma WinnerTextSendsOn(m: Matchup)
    ensures match WinnerText(m)
            case Ok(text) => SendsOn(m, text)
            case Err(e) => e == WinnerMissing && forall text :: !SendsOn(m, text)
  {
    if m.winner.Some? {
      ItemTextIsOwn(m.items, m.winner.value);
    } else if |m.items| == 2 {
      var w := if m.items[0].votes > m.items[1].votes then 0 else 1;
      assert m.items[w].votes > m.items[1 - w].votes || m.items[0].votes == m.items[1].votes;
    }
  }

  // ---- where each entry stands ----

  lemma PairStands(k: nat, labels: seq<string>, i: nat)
    requires k >= 1 && i < Pow2(k - 1)
    ensures FirstRound(k, labels)[i].items == [SeedItem(k, labels, 2 * i), SeedItem(k, labels, 2 * i + 1)]
  {
  }

  lemma SlotShowsSeed(k: nat, labels: seq<string>, i: nat, side: nat)
    requires k >= 1 && i < Pow2(k - 1) && side < 2
    ensures Shows(FirstRound(k, labels), i, side, LabelFor(labels, SeedAt(k, 2 * i + side)))
  {
    PairStands(k, labels, i);
  }

  lemma LabelOfEntry(k: nat, entries: seq<string>, seed: nat)
    requires 1 <= seed <= Pow2(k)
    ensures LabelFor(Labels(k, entries), seed)
         == FormatSeedLabel(seed, if seed <= |entries| then entries[seed - 1] else "")
  {
  }

  lemma GeneratedStartsWith(k: nat, entries: seq<string>, mode: string, duration: int)
    requires k >= 1
    ensures |Generated(k, entries, mode, duration).rounds| == k
    ensures Generated(k, entries, mode, duration).rounds[0] == FirstRound(k, Labels(k, entries))
  {
  }

  /** The first or second item of the matchup carries the text. */
  ghost predicate Shows(ms: seq<Matchup>, i: nat, side: nat, text: string) {
    i < |ms| && side < |ms[i].items| == 2 && ms[i].items[side].text == text
  }

  lemma SlotSides(k: nat, seed: nat) returns (i: nat, side: nat)
    requires k >= 1 && 1 <= seed <= Pow2(k)
    ensures side < 2 && i < Pow2(k - 1) && SeedAt(k, 2 * i + side) == seed
  {
    var slot := SlotOf(k, seed);
    SlotOfSeed(k, seed);
    i, side := slot / 2, slot % 2;
    assert slot == 2 * i + side;
  }

  lemma LabelStands(k: nat, labels: seq<string>, seed: nat, shown: string) returns (i: nat, side: nat)
    requires k >= 1 && 1 <= seed <= Pow2(k) && LabelFor(labels, seed) == shown
    ensures side < 2 && 2 * i + side < Pow2(k) && SeedAt(k, 2 * i + side) == seed
    ensures Shows(FirstRound(k, labels), i, side, shown)
  {
    i, side := SlotSides(k, seed);
    SlotShowsSeed(k, labels, i, side);
  }

  /**
   Every seed stands in the matchup and on the side where the seed order of the source has it,
   labelled with the entry of that number, if there is one.
   */
  lemma EveryEntryStands(k: nat, entries: seq<string>, mode: string, duration: int, seed: nat)
      returns (i: nat, side: nat)
    requires k >= 1 && 1 <= seed <= Pow2(k)
    ensures |NcaaSeedOrder(Pow2(k))| == Pow2(k) && side < 2 && 2 * i + side < Pow2(k)
    ensures NcaaSeedOrder(Pow2(k))[2 * i + side] == seed
    ensures |Generated(k, entries, mode, duration).rounds| == k
    ensures Shows(Generated(k, entries, mode, duration).rounds[0], i, side,
                  FormatSeedLabel(seed, if seed <= |entries| then entries[seed - 1] else ""))
  {
    var shown := FormatSeedLabel(seed, if seed <= |entries| then entries[seed - 1] else "");
    LabelOfEntry(k, entries, seed);
    i, side := LabelStands(k, Labels(k, entries), seed, shown);
    OrderIsSeedAt(k, 2 * i + side);
    GeneratedStartsWith(k, entries, mode, duration);
  }
}

/**
 The undisturbed tournament: as long as nobody votes and no winner is forced, the seeds of
 round r read in order are the seed order of the smaller bracket, and seed 1 wins. This joins
 generation, label printing and parsing, the seed tie-break and the pairing of winners.
 */
module BracketChalk {
  import opened Common
  import opened SeedOrder
  import opened SeedLabels
  import opened Winner
  import opened Bracket
  import opened BracketTree
  import opened BracketAdvance
  import opened BracketRuns

  /**
   Matchup i of round r+1 pairs seed s, which order(2^(k-r-1)) puts at slot i, with its complement
   in a bracket of 2^(k-r). It has no votes, and only the better seed may have won.
   */
  ghost predicate ChalkMatchup(k: nat, labels: seq<string>, r: nat, i: nat, m: Matchup) {
    && r < k && i < Pow2(k - 1 - r) && TwoItems(m)
    && m.items[0].votes == 0 && m.items[1].votes == 0
    && m.items[0].text == LabelFor(labels, SeedAt(k - 1 - r, i))
    && m.items[1].text == LabelFor(labels, Pow2(k - r) + 1 - SeedAt(k - 1 - r, i))
    && (m.winner.Some? ==> m.winner.value == m.items[0].id)
  }

  ghost predicate ChalkRound(k: nat, labels: seq<string>, r: nat, ms: seq<Matchup>) {
    forall i: nat {:trigger ms[i]} :: i < |ms| ==> ChalkMatchup(k, labels, r, i, ms[i])
  }

  ghost predicate ChalkRounds(k: nat, labels: seq<string>, populated: int, rounds: seq<seq<Matchup>>) {
    forall r: nat, i: nat {:trigger rounds[r][i]} :: r < populated && r < |rounds| && i < |rounds[r]| ==>
      ChalkMatchup(k, labels, r, i, rounds[r][i])
  }

  ghost predicate Chalk(k: nat, labels: seq<string>, st: State) {
    Tree(k, labels, st) && ChalkRounds(k, labels, st.row.currentRound, st.rounds)
  }

  // ---- one matchup ----

  /** Two items without votes, the first with the lower seed: the tie-break picks the first. */
  lemma FinalizePrefersFirst(m: Matchup)
    requires TwoItems(m) && m.items[0].votes == m.items[1].votes
    requires m.winner.Some? ==> m.winner.value == m.items[0].id
    requires var a, b := ParseSeedValue(m.items[0].text), ParseSeedValue(m.items[1].text);
             a.Some? && b.Some? && a.value < b.value
    ensures Finalize(m).Ok? && Finalize(m).value.items == m.items && Finalize(m).value.winner == Some(m.items[0].id)
  {
    if !Decided(m) {
      assert m.items == [m.items[0], m.items[1]];
      TwoContenders(m.items[0], m.items[1]);
    }
  }

  lemma ChalkSeeds(k: nat, labels: seq<string>, r: nat, i: nat, m: Matchup)
    requires Readable(k, labels) && ChalkMatchup(k, labels, r, i, m)
    ensures var s := SeedAt(k - 1 - r, i);
            && s < Pow2(k - r) + 1 - s
            && ParseSeedValue(m.items[0].text) == Some(s)
            && ParseSeedValue(m.items[1].text) == Some(Pow2(k - r) + 1 - s)
  {
    Pow2Grows(k - r, k);
  }

  /** The chalk reads only the items and the winner. */
  lemma ChalkSameItems(k: nat, labels: seq<string>, r: nat, i: nat, m: Matchup, m': Matchup)
    requires ChalkMatchup(k, labels, r, i, m) && m'.items == m.items
    requires m'.winner.Some? ==> m'.winner.value == m.items[0].id
    ensures ChalkMatchup(k, labels, r, i, m')
  {
  }

  /** Without votes the tie-break sends the better seed on. */
  lemma ChalkFinalize(k: nat, labels: seq<string>, r: nat, i: nat, m: Matchup)
    requires Readable(k, labels) && ChalkMatchup(k, labels, r, i, m)
    ensures Finalize(m).Ok? && ChalkMatchup(k, labels, r, i, Finalize(m).value)
  {
    ChalkSeeds(k, labels, r, i, m);
    FinalizePrefersFirst(m);
    ChalkSameItems(k, labels, r, i, m, Finalize(m).value);
  }

  // ---- steps ----

  lemma ChalkReplace(k: nat, labels: seq<string>, st: State, round: int, i: int, m: Matchup)
    requires Chalk(k, labels, st) && OnBoard(st, round, i)
    requires round <= st.row.currentRound ==> ChalkMatchup(k, labels, round - 1, i, m)
    requires Tree(k, labels, WithMatchup(st, round, i, m))
    ensures Chalk(k, labels, WithMatchup(st, round, i, m))
  {
  }

  /** With no votes, completing is refused for lack of a leader, or repeats the winner, or reopens. */
  lemma ChalkComplete(k: nat, labels: seq<string>, st: State, round: int, i: int)
    requires Chalk(k, labels, st)
    ensures Chalk(k, labels, Complete(st, round, i))
  {
    CompleteKeepsTree(k, labels, st, round, i);
    if OpenToOwner(st, round, i) {
      var m := st.rounds[round - 1][i];
      assert ChalkMatchup(k, labels, round - 1, i, m);
      if m.status == Completed {
        ChalkReplace(k, labels, st, round, i, m.(status := Active, winner := None));
      } else if m.winner.None? {
        assert m.items == [m.items[0]] + [m.items[1]];
        TopOfOne(m.items[0]);
        TopItemsSnoc([m.items[0]], m.items[1]);
        assert CompleteWinner(m.items, None) == Err(Tied);
      } else if CompleteWinner(m.items, m.winner).Ok? {
        ChalkReplace(k, labels, st, round, i, Stamp(m, m.winner.value));
      }
    }
  }

  lemma ChalkReadyUp(k: nat, labels: seq<string>, st: State, round: int, i: int)
    requires Chalk(k, labels, st)
    ensures Chalk(k, labels, ReadyUp(st, round, i))
  {
    ReadyUpKeepsTree(k, labels, st, round, i);
    if OnBoard(st, round, i) && st.rounds[round - 1][i].winner.Some? {
      var m := st.rounds[round - 1][i];
      assert Fits(st.row.currentRound, round, m);
      assert round <= st.row.currentRound;
      assert ChalkMatchup(k, labels, round - 1, i, m);
      ChalkReplace(k, labels, st, round, i, m.(status := Completed));
    }
  }

  lemma ChalkSync(k: nat, labels: seq<string>, populated: int, rounds: seq<seq<Matchup>>, row: Row)
    requires ChalkRounds(k, labels, populated, rounds)
    ensures ChalkRounds(k, labels, populated, SyncRounds(rounds, row))
  {
    var synced := SyncRounds(rounds, row);
    forall r: nat, i: nat | r < populated && r < |synced| && i < |synced[r]|
      ensures ChalkMatchup(k, labels, r, i, synced[r][i])
    {
      assert ChalkMatchup(k, labels, r, i, rounds[r][i]);
      ChalkSameItems(k, labels, r, i, rounds[r][i], synced[r][i]);
    }
  }

  lemma ChalkUpdate(k: nat, labels: seq<string>, st: State, req: UpdateRequest, now: int)
    requires Chalk(k, labels, st)
    ensures Chalk(k, labels, Update(st, req, now))
  {
    UpdateKeepsTree(k, labels, st, req, now);
    ChalkSync(k, labels, st.row.currentRound, st.rounds, UpdatedRow(st.row, req, now));
  }

  // ---- advance ----

  /** Deciding the current round keeps the chalk. */
  lemma ChalkResolved(k: nat, labels: seq<string>, st: State, current: seq<Matchup>)
    requires Chalk(k, labels, st) && Readable(k, labels)
    requires current == st.rounds[st.row.currentRound - 1] ||
             Ok(current) == FinalizeAll(st.rounds[st.row.currentRound - 1])
    ensures ChalkRounds(k, labels, st.row.currentRound, st.rounds[st.row.currentRound - 1 := current])
  {
    var c := st.row.currentRound;
    ChalkFinalizeAll(k, labels, c - 1, st.rounds[c - 1], current);
    ChalkRoundReplaced(k, labels, c, st.rounds, c - 1, current);
  }

  lemma ChalkRoundReplaced(k: nat, labels: seq<string>, populated: int, rounds: seq<seq<Matchup>>, r: nat,
      current: seq<Matchup>)
    requires ChalkRounds(k, labels, populated, rounds) && r < |rounds| && ChalkRound(k, labels, r, current)
    ensures ChalkRounds(k, labels, populated, rounds[r := current])
  {
  }

  lemma ChalkFinalizeAll(k: nat, labels: seq<string>, r: nat, was: seq<Matchup>, current: seq<Matchup>)
    requires Readable(k, labels) && ChalkRound(k, labels, r, was)
    requires current == was || Ok(current) == FinalizeAll(was)
    ensures |current| == |was| && ChalkRound(k, labels, r, current)
  {
    forall i: nat | i < |was|
      ensures Finalize(was[i]).Ok? && ChalkMatchup(k, labels, r, i, Finalize(was[i]).value)
    {
      ChalkFinalize(k, labels, r, i, was[i]);
    }
    FinalizeAllDecides(was);
  }

  lemma ChalkFilled(k: nat, labels: seq<string>, st: State, winners: seq<string>)
    requires Chalk(k, labels, st) && st.row.currentRound < k
    requires Sends(st.rounds[st.row.currentRound - 1], winners)
    ensures |winners| == 2 * |st.rounds[st.row.currentRound]|
    ensures ChalkRounds(k, labels, st.row.currentRound + 1, Filled(st, winners).rounds)
  {
    var c := st.row.currentRound;
    ChildrenExist(k, st.rounds, c - 1, 0);
    forall i | 0 <= i < |st.rounds[c]|
      ensures st.rounds[c][i].winner.None?
    {
      assert Fits(c, c + 1, st.rounds[c][i]);
    }
    ChalkFilledRound(k, labels, c, st.rounds[c - 1], st.rounds[c], winners, st.nextItemId);
    ChalkExtends(k, labels, c, st.rounds, Populate(st.rounds[c], winners, st.nextItemId));
  }

  lemma ChalkFilledRound(k: nat, labels: seq<string>, r: nat, current: seq<Matchup>, next: seq<Matchup>,
      winners: seq<string>, id: nat)
    requires 0 < r < k && id > 0 && |next| == Pow2(k - 1 - r) && |current| == 2 * |next| && Sends(current, winners)
    requires forall i: nat {:trigger current[i]} :: i < |current| ==> ChalkMatchup(k, labels, r - 1, i, current[i])
    requires forall i :: 0 <= i < |next| ==> next[i].winner.None?
    ensures forall i: nat {:trigger Populate(next, winners, id)[i]} :: i < |next| ==>
              ChalkMatchup(k, labels, r, i, Populate(next, winners, id)[i])
  {
    forall i: nat | i < |next|
      ensures ChalkMatchup(k, labels, r, i, Populate(next, winners, id)[i])
    {
      ChalkFilledMatchup(k, labels, r, i, current, next, winners, id);
    }
  }

  lemma ChalkFilledMatchup(k: nat, labels: seq<string>, r: nat, i: nat, current: seq<Matchup>, next: seq<Matchup>,
      winners: seq<string>, id: nat)
    requires 0 < r < k && i < Pow2(k - 1 - r) && i < |next| && id > 0 && next[i].winner.None?
    requires |current| == 2 * |next| && Sends(current, winners)
    requires ChalkMatchup(k, labels, r - 1, 2 * i, current[2 * i])
    requires ChalkMatchup(k, labels, r - 1, 2 * i + 1, current[2 * i + 1])
    ensures ChalkMatchup(k, labels, r, i, Populate(next, winners, id)[i])
  {
    PopulatedIsChalk(k, labels, r, i, next[i], current[2 * i], current[2 * i + 1], id + 2 * i);
  }

  lemma ChalkExtends(k: nat, labels: seq<string>, c: nat, rounds: seq<seq<Matchup>>, filled: seq<Matchup>)
    requires c < |rounds| && ChalkRounds(k, labels, c, rounds)
    requires forall i: nat {:trigger filled[i]} :: i < |filled| ==> ChalkMatchup(k, labels, c, i, filled[i])
    ensures ChalkRounds(k, labels, c + 1, rounds[c := filled])
  {
  }

  /** The seeds sent on by two neighbours are again a pair of the smaller order. */
  lemma PopulatedIsChalk(k: nat, labels: seq<string>, r: nat, i: nat, m: Matchup, a: Matchup, b: Matchup, id: nat)
    requires 0 < r < k && i < Pow2(k - 1 - r) && id > 0 && m.winner.None?
    requires ChalkMatchup(k, labels, r - 1, 2 * i, a) && ChalkMatchup(k, labels, r - 1, 2 * i + 1, b)
    requires Past(a) && Past(b)
    ensures ChalkMatchup(k, labels, r, i, PopulatedMatchup(m, Sent(a), Sent(b), id))
  {
    var j := k - r;
    PairsSumToSizePlusOne(j, i);
    assert k - 1 - (r - 1) == j;
    assert SeedAt(j, 2 * i) == SeedAt(j - 1, i) && SeedAt(j, 2 * i + 1) == Pow2(j) + 1 - SeedAt(j - 1, i);
  }

  lemma ChalkAdvance(k: nat, labels: seq<string>, st: State, now: int)
    requires Chalk(k, labels, st) && Readable(k, labels) && Advance(st, now).Ok?
    ensures Chalk(k, labels, Advance(st, now).value)
  {
    AdvanceKeepsTree(k, labels, st, now);
    if st.row.currentRound == k {
      ChalkLastAdvance(k, labels, st, now);
    } else {
      ChalkEarlierAdvance(k, labels, st, now);
    }
  }

  lemma ChalkLastAdvance(k: nat, labels: seq<string>, st: State, now: int)
    requires Chalk(k, labels, st) && Readable(k, labels) && st.row.currentRound == k && Advance(st, now).Ok?
    ensures ChalkRounds(k, labels, k, Advance(st, now).value.rounds)
  {
    var current := LastAdvanceIsAdvanceFinal(k, labels, st, now);
    ChalkResolved(k, labels, st, current);
    ChalkFinalAdvance(k, labels, st, now, current);
  }

  lemma ChalkEarlierAdvance(k: nat, labels: seq<string>, st: State, now: int)
    requires Chalk(k, labels, st) && Readable(k, labels) && st.row.currentRound < k && Advance(st, now).Ok?
    ensures ChalkRounds(k, labels, st.row.currentRound + 1, Advance(st, now).value.rounds)
  {
    var current := EarlierAdvanceIsAdvanceOne(k, labels, st, now);
    ChalkResolved(k, labels, st, current);
    ChalkAdvanceOne(k, labels, st, current, now);
  }

  lemma ChalkFinalAdvance(k: nat, labels: seq<string>, st: State, now: int, current: seq<Matchup>)
    requires Chalk(k, labels, st) && Readable(k, labels) && st.row.currentRound == k
    requires Refines(st.rounds[k - 1], current) && AdvanceFinal(st, current, now).Ok?
    requires ChalkRounds(k, labels, k, st.rounds[k - 1 := current])
    ensures ChalkRounds(k, labels, k, AdvanceFinal(st, current, now).value.rounds)
  {
    var resolved := st.(rounds := st.rounds[k - 1 := current]);
    ReplaceCurrentKeepsTree(k, labels, st, current);
    ChalkResolved(k, labels, resolved, FinalizeAll(current).value);
    assert resolved.rounds[k - 1 := FinalizeAll(current).value] == AdvanceFinal(st, current, now).value.rounds;
  }

  lemma ChalkAdvanceOne(k: nat, labels: seq<string>, st: State, current: seq<Matchup>, now: int)
    requires Chalk(k, labels, st) && st.row.currentRound < k
    requires Refines(st.rounds[st.row.currentRound - 1], current) && AdvanceOne(st, current, now).Ok?
    requires ChalkRounds(k, labels, st.row.currentRound, st.rounds[st.row.currentRound - 1 := current])
    ensures ChalkRounds(k, labels, st.row.currentRound + 1, AdvanceOne(st, current, now).value.rounds)
  {
    var c := st.row.currentRound;
    CollectWinnersNeedsCompleted(current);
    var winners := CollectWinners(current).value;
    var resolved := st.(rounds := st.rounds[c - 1 := current]);
    ReplaceCurrentKeepsTree(k, labels, st, current);
    ChalkFilled(k, labels, resolved, winners);
    ChalkSync(k, labels, c + 1, Filled(resolved, winners).rounds, RoundWindow(st.row.(currentRound := c + 1), now));
  }

  // ---- undisturbed runs ----

  /** Steps that neither vote nor force a winner. */
  ghost predicate Undisturbed(step: Step) {
    !step.Vote? && !step.OverrideWinner? && !step.ResolveTieAndAdvance?
  }

  lemma ChalkStep(k: nat, labels: seq<string>, st: State, step: Step)
    requires Chalk(k, labels, st) && Readable(k, labels) && Undisturbed(step)
    ensures Chalk(k, labels, TakeStep(st, step))
  {
    match step
    case CompleteMatchup(round, i) => ChalkComplete(k, labels, st, round, i);
    case ReadyUpMatchup(round, i) => ChalkReadyUp(k, labels, st, round, i);
    case UpdateBracket(req, now) => ChalkUpdate(k, labels, st, req, now);
    case AdvanceBracket(now) =>
      if Advance(st, now).Ok? {
        ChalkAdvance(k, labels, st, now);
      }
  }

  lemma {:induction false} ChalkRun(k: nat, entries: seq<string>, mode: string, duration: int, steps: seq<Step>)
    requires k >= 1 && SizeFits(k) && forall s :: s in steps ==> Undisturbed(s)
    ensures Chalk(k, Labels(k, entries), Run(Generated(k, entries, mode, duration), steps))
  {
    if steps == [] {
      GeneratedIsTree(k, entries, mode, duration);
      GeneratedIsChalk(k, entries, mode, duration);
    } else {
      var before := steps[..|steps| - 1];
      ChalkRun(k, entries, mode, duration, before);
      PrintedLabelsAreReadable(k, entries);
      ChalkStep(k, Labels(k, entries), Run(Generated(k, entries, mode, duration), before), steps[|steps| - 1]);
    }
  }

  lemma GeneratedIsChalk(k: nat, entries: seq<string>, mode: string, duration: int)
    requires k >= 1
    ensures ChalkRounds(k, Labels(k, entries), 1, Generated(k, entries, mode, duration).rounds)
  {
    var rounds := Generated(k, entries, mode, duration).rounds;
    forall i: nat | i < |rounds[0]|
      ensures ChalkMatchup(k, Labels(k, entries), 0, i, rounds[0][i])
    {
      FirstRoundIsChalk(k, Labels(k, entries), i);
    }
  }

  lemma FirstRoundIsChalk(k: nat, labels: seq<string>, i: nat)
    requires k >= 1 && i < Pow2(k - 1)
    ensures ChalkMatchup(k, labels, 0, i, FirstRound(k, labels)[i])
  {
    PairsSumToSizePlusOne(k, i);
  }

  /** The parsed seeds of a matchup are slots 2i and 2i+1 of order(2^j). */
  ghost predicate ShowsOrder(m: Matchup, j: nat, i: nat) {
    && |m.items| == 2 && |NcaaSeedOrder(Pow2(j))| == Pow2(j) && 2 * i + 1 < Pow2(j)
    && ParseSeedValue(m.items[0].text) == Some(NcaaSeedOrder(Pow2(j))[2 * i])
    && ParseSeedValue(m.items[1].text) == Some(NcaaSeedOrder(Pow2(j))[2 * i + 1])
  }

  lemma PairShowsOrder(m: Matchup, j: nat, i: nat)
    requires j >= 1 && i < Pow2(j - 1) && |m.items| == 2
    requires ParseSeedValue(m.items[0].text) == Some(SeedAt(j - 1, i))
    requires ParseSeedValue(m.items[1].text) == Some(Pow2(j) + 1 - SeedAt(j - 1, i))
    ensures ShowsOrder(m, j, i)
  {
    OrderShowsPair(j, i);
  }

  lemma ChalkShowsOrder(k: nat, labels: seq<string>, r: nat, i: nat, m: Matchup)
    requires Readable(k, labels) && ChalkMatchup(k, labels, r, i, m)
    ensures ShowsOrder(m, k - r, i)
  {
    ChalkSeeds(k, labels, r, i, m);
    PairShowsOrder(m, k - r, i);
  }

  /**
   In an undisturbed run the parsed seeds of every populated round r+1, read in order, are
   exactly ncaaSeedOrder(size / 2^r).
   */
  lemma UndisturbedSeeds(k: nat, entries: seq<string>, mode: string, duration: int, steps: seq<Step>, r: nat, i: nat)
    requires k >= 1 && SizeFits(k) && forall s :: s in steps ==> Undisturbed(s)
    requires var st := Run(Generated(k, entries, mode, duration), steps);
             r < st.row.currentRound && r < |st.rounds| && i < |st.rounds[r]|
    ensures var m := Run(Generated(k, entries, mode, duration), steps).rounds[r][i];
            r < k && ShowsOrder(m, k - r, i)
  {
    var m := Run(Generated(k, entries, mode, duration), steps).rounds[r][i];
    ChalkRun(k, entries, mode, duration, steps);
    PrintedLabelsAreReadable(k, entries);
    ChalkShowsOrder(k, Labels(k, entries), r, i, m);
  }

  /** The champion of an undisturbed bracket is the entry of seed 1. */
  lemma UndisturbedChampion(k: nat, entries: seq<string>, mode: string, duration: int, steps: seq<Step>, now: int)
      returns (done: State)
    requires k >= 1 && SizeFits(k) && forall s :: s in steps ==> Undisturbed(s)
    requires Run(Generated(k, entries, mode, duration), steps).row.currentRound == k
    ensures Advance(Run(Generated(k, entries, mode, duration), steps), now) == Ok(done)
    ensures CrownsLabel(k, done, FormatSeedLabel(1, EntryText(entries, 1)))
  {
    ChalkRun(k, entries, mode, duration, steps);
    PrintedLabelsAreReadable(k, entries);
    done := ChalkChampion(k, Labels(k, entries), Run(Generated(k, entries, mode, duration), steps), now);
    FirstLabel(k, entries);
  }

  /** The last round is one decided matchup, and its winner carries the label. */
  ghost predicate CrownsLabel(k: nat, done: State, champion: string)
    requires k >= 1
  {
    && |done.rounds| == k && |done.rounds[k - 1]| == 1
    && Past(done.rounds[k - 1][0]) && Sent(done.rounds[k - 1][0]) == champion
  }

  lemma FirstLabel(k: nat, entries: seq<string>)
    ensures LabelFor(Labels(k, entries), 1) == FormatSeedLabel(1, EntryText(entries, 1))
  {
  }

  lemma ChalkChampion(k: nat, labels: seq<string>, st: State, now: int) returns (done: State)
    requires Chalk(k, labels, st) && Readable(k, labels) && st.row.currentRound == k
    ensures Advance(st, now) == Ok(done) && CrownsLabel(k, done, LabelFor(labels, 1))
  {
    FinalAdvance(k, labels, st, now);
    ChalkAdvance(k, labels, st, now);
    done := Advance(st, now).value;
    assert ChalkMatchup(k, labels, k - 1, 0, done.rounds[k - 1][0]);
  }
}

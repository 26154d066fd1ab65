/** The item ids of a bracket: every run stays below the counter that the next round's ids come from. */
module BracketIds {
  import opened Common
  import opened Winner
  import opened Bracket
  import opened BracketTree
  import opened BracketAdvance
  import opened BracketRuns
  import opened BracketRequests
  import opened BracketOutcome

  /** Every item id was handed out before. */
  ghost predicate IdsBelow(st: State) {
    forall r, i, x :: 0 <= r < |st.rounds| && 0 <= i < |st.rounds[r]| && x in st.rounds[r][i].items ==>
      x.id < st.nextItemId
  }

  ghost predicate SameIds(items: seq<Item>, items': seq<Item>) {
    |items'| == |items| && forall j :: 0 <= j < |items| ==> items'[j].id == items[j].id
  }

  ghost predicate AllSameIds(ms: seq<Matchup>, ms': seq<Matchup>) {
    |ms'| == |ms| && forall i :: 0 <= i < |ms| ==> SameIds(ms[i].items, ms'[i].items)
  }

  lemma SameIdsStayBelow(st: State, st': State)
    requires IdsBelow(st) && st'.nextItemId >= st.nextItemId && |st'.rounds| == |st.rounds|
    requires forall r :: 0 <= r < |st.rounds| ==> AllSameIds(st.rounds[r], st'.rounds[r])
    ensures IdsBelow(st')
  {
    forall r, i, x | 0 <= r < |st'.rounds| && 0 <= i < |st'.rounds[r]| && x in st'.rounds[r][i].items
      ensures x.id < st'.nextItemId
    {
      var items, items' := st.rounds[r][i].items, st'.rounds[r][i].items;
      assert AllSameIds(st.rounds[r], st'.rounds[r]) && SameIds(items, items');
      var j :| 0 <= j < |items'| && items'[j] == x;
      assert items[j] in items;
    }
  }

  lemma OneMatchupKeepsIds(st: State, st': State, round: int, i: int)
    requires IdsBelow(st) && OnlyMatchup(st, st', round, i)
    requires OnBoard(st, round, i) ==> SameIds(st.rounds[round - 1][i].items, st'.rounds[round - 1][i].items)
    ensures IdsBelow(st')
  {
    forall r | 0 <= r < |st.rounds|
      ensures AllSameIds(st.rounds[r], st'.rounds[r])
    {
      forall j | 0 <= j < |st.rounds[r]|
        ensures SameIds(st.rounds[r][j].items, st'.rounds[r][j].items)
      {
        assert st'.rounds[r][j] == st.rounds[r][j] || (r == round - 1 && j == i);
      }
    }
    SameIdsStayBelow(st, st');
  }

  lemma OverrideKeepsIds(st: State, round: int, i: int, winner: nat)
    requires IdsBelow(st)
    ensures IdsBelow(Override(st, round, i, winner))
  {
    OverrideCrowns(st, round, i, winner);
    if Override(st, round, i, winner) != st {
      OneMatchupKeepsIds(st, Override(st, round, i, winner), round, i);
    }
  }

  lemma CompleteKeepsIds(st: State, round: int, i: int)
    requires IdsBelow(st)
    ensures IdsBelow(Complete(st, round, i))
  {
    if OpenToOwner(st, round, i) {
      CompleteCrownsOrReopens(st, round, i);
      CompleteKeepsItems(st, round, i);
      OneMatchupKeepsIds(st, Complete(st, round, i), round, i);
    }
  }

  lemma CompleteKeepsItems(st: State, round: int, i: int)
    requires OpenToOwner(st, round, i)
    ensures OnBoard(Complete(st, round, i), round, i)
    ensures Complete(st, round, i).rounds[round - 1][i].items == st.rounds[round - 1][i].items
  {
  }

  lemma ReadyUpKeepsIds(st: State, round: int, i: int)
    requires IdsBelow(st)
    ensures IdsBelow(ReadyUp(st, round, i))
  {
    ReadyUpCloses(st, round, i);
    if ReadyUp(st, round, i) != st {
      OneMatchupKeepsIds(st, ReadyUp(st, round, i), round, i);
    }
  }

  lemma VotesKeepIds(st: State, round: int, i: int, j: int, votes: nat)
    requires IdsBelow(st)
    ensures IdsBelow(CastVotes(st, round, i, j, votes))
  {
    VotesChangeOneCount(st, round, i, j, votes);
    if CastVotes(st, round, i, j, votes) != st {
      OneMatchupKeepsIds(st, CastVotes(st, round, i, j, votes), round, i);
    }
  }

  lemma UpdateKeepsIds(st: State, req: UpdateRequest, now: int)
    requires IdsBelow(st)
    ensures IdsBelow(Update(st, req, now))
  {
    SameIdsStayBelow(st, Update(st, req, now));
  }

  lemma JudgedKeepsIds(was: seq<Matchup>, now: seq<Matchup>)
    requires AllJudged(was, now)
    ensures AllSameIds(was, now)
  {
    forall i | 0 <= i < |was|
      ensures SameIds(was[i].items, now[i].items)
    {
      assert Judged(was[i], now[i]);
    }
  }

  /** Every round but the one that is filled keeps its items. */
  lemma AdvanceOneKeepsIds(st: State, current: seq<Matchup>, now: int, r: nat)
    requires 1 <= st.row.currentRound < |st.rounds| && AdvanceOne(st, current, now).Ok?
    requires r < |st.rounds| && r != st.row.currentRound
    ensures var st' := AdvanceOne(st, current, now).value;
            && |st'.rounds| == |st.rounds|
            && AllSameIds(if r == st.row.currentRound - 1 then current else st.rounds[r], st'.rounds[r])
  {
  }

  lemma AdvanceOneKeepsBelow(st: State, current: seq<Matchup>, now: int)
    requires IdsBelow(st) && 1 <= st.row.currentRound < |st.rounds| && AdvanceOne(st, current, now).Ok?
    requires AllSameIds(st.rounds[st.row.currentRound - 1], current)
    ensures IdsBelow(AdvanceOne(st, current, now).value)
  {
    var c, st' := st.row.currentRound, AdvanceOne(st, current, now).value;
    forall r, i, x | 0 <= r < |st'.rounds| && 0 <= i < |st'.rounds[r]| && x in st'.rounds[r][i].items
      ensures x.id < st'.nextItemId
    {
      var j :| 0 <= j < |st'.rounds[r][i].items| && st'.rounds[r][i].items[j] == x;
      if r == c {
        AdvanceOneFills(st, current, now, i, if j == 0 then 0 else 1);
      } else {
        AdvanceOneKeepsIds(st, current, now, r);
        var was := if r == c - 1 then current else st.rounds[r];
        assert SameIds(was[i].items, st'.rounds[r][i].items);
        assert r == c - 1 ==> SameIds(st.rounds[r][i].items, current[i].items);
        assert st.rounds[r][i].items[j] in st.rounds[r][i].items;
      }
    }
  }

  lemma FinalKeepsIds(k: nat, labels: seq<string>, st: State, now: int)
    requires Tree(k, labels, st) && Readable(k, labels) && st.row.currentRound == k && IdsBelow(st)
    ensures Advance(st, now).Ok? && IdsBelow(Advance(st, now).value)
  {
    FinalJudges(k, labels, st, now);
    FinalAdvance(k, labels, st, now);
    LastRoundKeepsIds(st, Advance(st, now).value);
  }

  lemma LastRoundKeepsIds(st: State, st': State)
    requires IdsBelow(st) && RoundJudged(st, st') && st'.nextItemId == st.nextItemId
    requires st'.rounds == st.rounds[st.row.currentRound - 1 := st'.rounds[st.row.currentRound - 1]]
    ensures IdsBelow(st')
  {
    JudgedKeepsIds(st.rounds[st.row.currentRound - 1], st'.rounds[st.row.currentRound - 1]);
    SameIdsStayBelow(st, st');
  }

  lemma ResolvedKeepsBelow(k: nat, labels: seq<string>, st: State, current: seq<Matchup>, now: int)
    requires Tree(k, labels, st) && Readable(k, labels) && st.row.currentRound < k && IdsBelow(st)
    requires ResolvesTo(st.rounds[st.row.currentRound - 1], current, AutoFinalizes(st.row, now))
    requires AdvanceOne(st, current, now).Ok?
    ensures IdsBelow(AdvanceOne(st, current, now).value)
  {
    AdvanceOneCloses(st, current, now);
    CollectWinnersNeedsCompleted(current);
    ResolvedIsJudged(k, labels, st, current, AutoFinalizes(st.row, now));
    JudgedKeepsIds(st.rounds[st.row.currentRound - 1], current);
    AdvanceOneKeepsBelow(st, current, now);
  }

  lemma EarlierKeepsIds(k: nat, labels: seq<string>, st: State, now: int)
    requires Tree(k, labels, st) && Readable(k, labels) && st.row.currentRound < k && IdsBelow(st)
    requires Advance(st, now).Ok?
    ensures IdsBelow(Advance(st, now).value)
  {
    var current := EarlierAdvanceIsAdvanceOne(k, labels, st, now);
    ResolvedKeepsBelow(k, labels, st, current, now);
  }

  lemma AdvanceOrStayKeepsIds(k: nat, labels: seq<string>, st: State, now: int)
    requires Tree(k, labels, st) && Readable(k, labels) && IdsBelow(st)
    ensures IdsBelow(AdvanceOrStay(st, now))
  {
    if Advance(st, now).Ok? {
      if st.row.currentRound == k {
        FinalKeepsIds(k, labels, st, now);
      } else {
        EarlierKeepsIds(k, labels, st, now);
      }
    }
  }

  lemma StepKeepsIds(k: nat, labels: seq<string>, st: State, step: Step)
    requires Tree(k, labels, st) && Readable(k, labels) && IdsBelow(st)
    ensures IdsBelow(TakeStep(st, step))
  {
    match step
    case Vote(round, i, j, votes) => VotesKeepIds(st, round, i, j, votes);
    case OverrideWinner(round, i, winner) => OverrideKeepsIds(st, round, i, winner);
    case CompleteMatchup(round, i) => CompleteKeepsIds(st, round, i);
    case ReadyUpMatchup(round, i) => ReadyUpKeepsIds(st, round, i);
    case UpdateBracket(req, now) => UpdateKeepsIds(st, req, now);
    case AdvanceBracket(now) => AdvanceOrStayKeepsIds(k, labels, st, now);
    case ResolveTieAndAdvance(round, i, winner, now) =>
      OverrideKeepsIds(st, round, i, winner);
      OverrideKeepsTree(k, labels, st, round, i, winner);
      AdvanceOrStayKeepsIds(k, labels, Override(st, round, i, winner), now);
  }

  /** In every run the ids of the next round's items are new: all ids in use are below the counter. */
  lemma {:induction false} EveryRunKeepsIdsBelow(k: nat, entries: seq<string>, mode: string, duration: int,
      steps: seq<Step>)
    requires k >= 1 && SizeFits(k)
    ensures IdsBelow(Run(Generated(k, entries, mode, duration), steps))
  {
    if steps == [] {
      GeneratedIdsBelow(k, entries, mode, duration);
    } else {
      var before := steps[..|steps| - 1];
      EveryRunKeepsIdsBelow(k, entries, mode, duration, before);
      EveryRunKeepsTree(k, entries, mode, duration, before);
      PrintedLabelsAreReadable(k, entries);
      StepKeepsIds(k, Labels(k, entries), Run(Generated(k, entries, mode, duration), before), steps[|steps| - 1]);
    }
  }

  lemma GeneratedIdsBelow(k: nat, entries: seq<string>, mode: string, duration: int)
    requires k >= 1
    ensures IdsBelow(Generated(k, entries, mode, duration))
  {
    var st := Generated(k, entries, mode, duration);
    forall r, i, x | 0 <= r < |st.rounds| && 0 <= i < |st.rounds[r]| && x in st.rounds[r][i].items
      ensures x.id < st.nextItemId
    {
      if r == 0 {
        PairStands(k, Labels(k, entries), i);
      } else {
        assert GeneratedRound(k, Labels(k, entries), r)[i].items == [];
      }
    }
  }
}

/**
 What the owner's requests and an advance do, read off the fields of the state: which matchup
 changes, who becomes its winner, who goes on, and when the rounds open and close.
 */
module BracketRequests {
  import opened Common
  import opened SeedOrder
  import opened SeedLabels
  import opened Winner
  import opened Bracket
  import opened BracketTree
  import opened BracketAdvance
  import opened BracketRuns

  // ---- one matchup ----

  ghost predicate SameTable(st: State, st': State) {
    && |st'.rounds| == |st.rounds|
    && forall r :: 0 <= r < |st.rounds| ==> |st'.rounds[r]| == |st.rounds[r]|
  }

  /** At most matchup i of the round differs. */
  ghost predicate OnlyMatchup(st: State, st': State, round: int, i: int) {
    && st'.row == st.row && st'.nextItemId == st.nextItemId && SameTable(st, st')
    && forall r, j {:trigger st'.rounds[r][j]} :: 0 <= r < |st.rounds| && 0 <= j < |st.rounds[r]| ==>
         (r == round - 1 && j == i) || st'.rounds[r][j] == st.rounds[r][j]
  }

  /** The matchup is completed with the winner; its items and times are as before. */
  ghost predicate Crowned(m: Matchup, m': Matchup, winner: nat) {
    && m'.winner == Some(winner) && m'.status == Completed
    && m'.items == m.items && m'.startTime == m.startTime && m'.endTime == m.endTime
  }

  ghost predicate Offers(m: Matchup, id: nat) {
    exists x :: x in m.items && x.id == id
  }

  /** The matchup is there, in the current round of an active bracket. */
  ghost predicate InPlay(st: State, round: int, i: int) {
    && st.row.status == "active" && st.row.currentRound == round
    && 1 <= round <= |st.rounds| && 0 <= i < |st.rounds[round - 1]|
  }

  lemma OffersIsHasId(m: Matchup, id: nat)
    ensures Offers(m, id) <==> HasId(m.items, id)
  {
    if HasId(m.items, id) {
      var j :| 0 <= j < |m.items| && m.items[j].id == id;
      assert m.items[j] in m.items;
    }
  }

  /** The item that the owner names becomes the winner of the matchup that the owner names, or nothing happens. */
  lemma OverrideCrowns(st: State, round: int, i: int, winner: nat)
    ensures var st' := Override(st, round, i, winner);
            if InPlay(st, round, i) && Offers(st.rounds[round - 1][i], winner)
            then OnlyMatchup(st, st', round, i) && Crowned(st.rounds[round - 1][i], st'.rounds[round - 1][i], winner)
            else st' == st
  {
    if InPlay(st, round, i) {
      OffersIsHasId(st.rounds[round - 1][i], winner);
    }
  }

  // ---- complete and reopen ----

  /** One item has more votes than each of the others. */
  ghost predicate Leads(items: seq<Item>, j: int) {
    0 <= j < |items| && forall x :: 0 <= x < |items| && x != j ==> items[x].votes < items[j].votes
  }

  lemma {:induction false} WithVotesOf(items: seq<Item>, j: nat)
    requires j < |items| && forall x :: 0 <= x < |items| && x != j ==> items[x].votes != items[j].votes
    ensures WithVotes(items, items[j].votes) == [items[j]]
  {
    var front := items[..|items| - 1];
    if j < |front| {
      WithVotesOf(front, j);
    } else if front != [] && WithVotes(front, items[j].votes) != [] {
      SomeWithVotes(front, items[j].votes);
    }
  }

  lemma LeaderIsTop(items: seq<Item>, j: int)
    requires Leads(items, j)
    ensures TopItems(items) == [items[j]]
  {
    var top := TopVotesIsMax(items);
    assert items[j] in items;
    WithVotesOf(items, j);
  }

  lemma LoneTopLeads(items: seq<Item>) returns (j: int)
    requires items != [] && |TopItems(items)| <= 1
    ensures Leads(items, j) && items[j].id == TopItems(items)[0].id
  {
    var top := TopVotesIsMax(items);
    j :| 0 <= j < |items| && items[j] == top;
    forall x | 0 <= x < |items| && x != j
      ensures items[x].votes < items[j].votes
    {
      assert items[x] in items;
      SharedVotes(items, top.votes);
    }
    LeaderIsTop(items, j);
  }

  /** Who a complete makes the winner: the chosen item if it is one of the matchup's, else the only leader. */
  ghost predicate Deserves(m: Matchup, id: nat) {
    match m.winner
    case Some(chosen) => chosen == id && Offers(m, id)
    case None => exists j :: Leads(m.items, j) && m.items[j].id == id
  }

  lemma CompleteWinnerDeserves(m: Matchup, id: nat)
    ensures CompleteWinner(m.items, m.winner) == Ok(id) <==> Deserves(m, id)
  {
    match m.winner
    case Some(chosen) => OffersIsHasId(m, chosen);
    case None =>
      if CompleteWinner(m.items, None).Ok? {
        var j := LoneTopLeads(m.items);
      }
      if Deserves(m, id) {
        var j :| Leads(m.items, j) && m.items[j].id == id;
        LeaderIsTop(m.items, j);
      }
  }

  /**
   Completing crowns who deserves it and otherwise does nothing; a completed matchup loses its
   winner and is open again.
   */
  lemma CompleteCrownsOrReopens(st: State, round: int, i: int)
    ensures var st' := Complete(st, round, i);
            if !InPlay(st, round, i) then st' == st
            else
              var m, m' := st.rounds[round - 1][i], st'.rounds[round - 1][i];
              && OnlyMatchup(st, st', round, i)
              && (m.status == Completed ==> m' == m.(status := Active, winner := None))
              && (m.status != Completed ==>
                    && (forall id: nat :: Deserves(m, id) ==> Crowned(m, m', id))
                    && ((forall id: nat :: !Deserves(m, id)) ==> st' == st))
  {
    if InPlay(st, round, i) && st.rounds[round - 1][i].status != Completed {
      CompleteIsDeserved(st, round, i);
    }
  }

  lemma CompleteIsDeserved(st: State, round: int, i: int)
    requires InPlay(st, round, i) && st.rounds[round - 1][i].status != Completed
    ensures var st', m := Complete(st, round, i), st.rounds[round - 1][i];
            && OnlyMatchup(st, st', round, i)
            && (forall id: nat :: Deserves(m, id) ==> Crowned(m, st'.rounds[round - 1][i], id))
            && ((forall id: nat :: !Deserves(m, id)) ==> st' == st)
  {
    var st', m := Complete(st, round, i), st.rounds[round - 1][i];
    forall id: nat
      ensures CompleteWinner(m.items, m.winner) == Ok(id) <==> Deserves(m, id)
    {
      CompleteWinnerDeserves(m, id);
    }
  }

  /** Ready-up closes a matchup that has a winner, and leaves that winner alone. */
  lemma ReadyUpCloses(st: State, round: int, i: int)
    ensures var st' := ReadyUp(st, round, i);
            if OnBoard(st, round, i) && st.rounds[round - 1][i].winner != None
            then OnlyMatchup(st, st', round, i) && Crowned(st.rounds[round - 1][i], st'.rounds[round - 1][i],
                                                           st.rounds[round - 1][i].winner.value)
            else st' == st
  {
  }

  /** Votes change the count of one item. */
  lemma VotesChangeOneCount(st: State, round: int, i: int, j: int, votes: nat)
    ensures var st' := CastVotes(st, round, i, j, votes);
            if OnBoard(st, round, i) && 0 <= j < |st.rounds[round - 1][i].items|
            then
              var m, m' := st.rounds[round - 1][i], st'.rounds[round - 1][i];
              && OnlyMatchup(st, st', round, i) && m' == m.(items := m'.items) && |m'.items| == |m.items|
              && (forall x :: 0 <= x < |m.items| && x != j ==> m'.items[x] == m.items[x])
              && m'.items[j] == m.items[j].(votes := votes)
            else st' == st
  {
  }
}

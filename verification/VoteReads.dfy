/**
 What a read shows: the column plus the buffer, floored at zero. Between the worker's swap and its
 update the amount in its hands is in neither, so a read can show too few votes or too many.
 */
module VoteReads {
  import opened Common
  import opened Winner
  import opened VoteLedger
  import opened VoteRuns
  import opened VoteAlone

  /** Absent and zero counters both read as "no pending change". */
  method LoadVoteDeltas(buffer: map<nat, int>, ids: seq<nat>) returns (deltas: map<nat, int>)
    ensures forall x :: x in deltas <==> x in ids && Get(buffer, x) != 0
    ensures forall x :: x in deltas ==> deltas[x] == Get(buffer, x)
  {
    deltas := map[];
    for i := 0 to |ids|
      invariant forall x :: x in deltas <==> x in ids[..i] && Get(buffer, x) != 0
      invariant forall x :: x in deltas ==> deltas[x] == Get(buffer, x)
    {
      if ids[i] in buffer && buffer[ids[i]] != 0 {
        deltas := deltas[ids[i] := buffer[ids[i]]];
      }
    }
  }

  /** The items as the column has them, and the deltas as the buffer has them, in one state. */
  ghost predicate Loaded(st: Ledger, items: seq<Item>, deltas: map<nat, int>) {
    forall i :: 0 <= i < |items| ==>
      var x := items[i].id;
      && x in st.stored && items[i].votes == st.stored[x]
      && (x in deltas <==> Get(st.buffer, x) != 0) && (x in deltas ==> deltas[x] == Get(st.buffer, x))
  }

  function Merged(items: seq<Item>, deltas: map<nat, int>): (merged: seq<Item>)
    ensures |merged| == |items|
  {
    seq(|items|, i requires 0 <= i < |items| => MergedItem(items[i], deltas))
  }

  /** The flush worker has nothing of `x` in hand. */
  ghost predicate NotInFlush(st: Ledger, x: nat) {
    Get(st.held, x) == 0
  }

  /** The pick rows of `x` whose counter changes have been made. */
  ghost function Counted(st: Ledger, x: nat): int {
    PickCount(st, x) - Owed(st, x)
  }

  /**
   A merged count is the number of counted pick rows exactly when the worker has nothing of the
   item in hand, or holds votes of an item whose counted rows are all gone again. Its floor at
   zero is unused exactly when the worker holds no more than the counted rows.
   */
  lemma MergedCountIff(existing: set<nat>, steps: seq<Step>, items: seq<Item>, deltas: map<nat, int>, i: nat)
    requires Orderly(Fresh(existing), steps) && Loaded(Run(Fresh(existing), steps), items, deltas)
    requires i < |items| && items[i].id in existing
    ensures var st, x := Run(Fresh(existing), steps), items[i].id;
            && (Merged(items, deltas)[i].votes == Counted(st, x) <==>
                  NotInFlush(st, x) || (Get(st.held, x) > 0 && Counted(st, x) == 0))
            && (Merged(items, deltas)[i].votes == items[i].votes + Get(deltas, x) <==>
                  Get(st.held, x) <= Counted(st, x))
  {
    EveryRunBalances(existing, steps, items[i].id);
  }

  /**
   With nothing owed and nothing in the worker's hands, the winner of a complete or an advance
   has the most pick rows, however the counts are split between column and buffer.
   */
  lemma WinnerHasMostPicks(existing: set<nat>, steps: seq<Step>, items: seq<Item>, deltas: map<nat, int>)
    requires Orderly(Fresh(existing), steps) && Loaded(Run(Fresh(existing), steps), items, deltas) && items != []
    requires forall i :: 0 <= i < |items| ==>
               && items[i].id in existing && NotInFlush(Run(Fresh(existing), steps), items[i].id)
               && Owed(Run(Fresh(existing), steps), items[i].id) == 0
    ensures var st := Run(Fresh(existing), steps);
            && (AdvanceWinner(Merged(items, deltas)).Ok? ==>
                  MostPicks(st, items, AdvanceWinner(Merged(items, deltas)).value))
            && (CompleteWinner(Merged(items, deltas), None).Ok? ==>
                  MostPicks(st, items, CompleteWinner(Merged(items, deltas), None).value))
            && (CompleteWinner(Merged(items, deltas), None) == Err(Tied) <==> SharedLead(st, items))
  {
    var merged := Merged(items, deltas);
    var st := Run(Fresh(existing), steps);
    forall i | 0 <= i < |items|
      ensures merged[i].id == items[i].id && merged[i].votes == PickCount(st, items[i].id)
    {
      MergedCountIff(existing, steps, items, deltas, i);
    }
    TrueCountsDecide(st, items, merged);
  }

  ghost predicate MostPicks(st: Ledger, items: seq<Item>, winner: nat) {
    && HasId(items, winner)
    && forall i :: 0 <= i < |items| ==> PickCount(st, items[i].id) <= PickCount(st, winner)
  }

  /** Two of the items share the highest number of pick rows. */
  ghost predicate SharedLead(st: Ledger, items: seq<Item>) {
    exists i, j :: 0 <= i < j < |items|
      && PickCount(st, items[i].id) == PickCount(st, items[j].id)
      && MostPicks(st, items, items[i].id)
  }

  lemma TrueCountsDecide(st: Ledger, items: seq<Item>, merged: seq<Item>)
    requires items != [] && |merged| == |items|
    requires forall i :: 0 <= i < |items| ==>
        merged[i].id == items[i].id && merged[i].votes == PickCount(st, items[i].id)
    ensures AdvanceWinner(merged).Ok? ==> MostPicks(st, items, AdvanceWinner(merged).value)
    ensures CompleteWinner(merged, None).Ok? ==> MostPicks(st, items, CompleteWinner(merged, None).value)
    ensures CompleteWinner(merged, None) == Err(Tied) <==> SharedLead(st, items)
  {
    TopHasMostPicks(st, items, merged);
    TieIsSharedLead(st, items, merged);
    AdvanceWinnerIsTop(merged);
  }

  lemma AdvanceWinnerIsTop(items: seq<Item>)
    requires items != []
    ensures AdvanceWinner(items).Ok? ==> exists x :: x in TopItems(items) && x.id == AdvanceWinner(items).value
    ensures CompleteWinner(items, None).Ok? ==>
        exists x :: x in TopItems(items) && x.id == CompleteWinner(items, None).value
  {
    assert TopItems(items)[0] in TopItems(items);
  }

  lemma TopHasMostPicks(st: Ledger, items: seq<Item>, merged: seq<Item>)
    requires items != [] && |merged| == |items|
    requires forall i :: 0 <= i < |items| ==>
        merged[i].id == items[i].id && merged[i].votes == PickCount(st, items[i].id)
    ensures forall x :: x in TopItems(merged) ==> MostPicks(st, items, x.id)
  {
    TopItemsMembers(merged);
    forall x | x in TopItems(merged)
      ensures MostPicks(st, items, x.id)
    {
      var i :| 0 <= i < |merged| && merged[i] == x;
      assert items[i].id == x.id;
      forall j | 0 <= j < |items|
        ensures PickCount(st, items[j].id) <= PickCount(st, x.id)
      {
        assert merged[j] in merged;
      }
    }
  }

  lemma TieIsSharedLead(st: Ledger, items: seq<Item>, merged: seq<Item>)
    requires items != [] && |merged| == |items|
    requires forall i :: 0 <= i < |items| ==>
        merged[i].id == items[i].id && merged[i].votes == PickCount(st, items[i].id)
    ensures CompleteWinner(merged, None) == Err(Tied) <==> SharedLead(st, items)
  {
    SharedVotes(merged, TopVotes(merged));
    if |TopItems(merged)| >= 2 {
      TieShowsLead(st, items, merged);
    }
    if SharedLead(st, items) {
      LeadShowsTie(st, items, merged);
    }
  }

  ghost predicate SharedTop(merged: seq<Item>) {
    merged != [] &&
    exists i, j :: 0 <= i < j < |merged| && merged[i].votes == TopVotes(merged) && merged[j].votes == TopVotes(merged)
  }

  lemma TieShowsLead(st: Ledger, items: seq<Item>, merged: seq<Item>)
    requires |merged| == |items| && SharedTop(merged)
    requires forall i :: 0 <= i < |items| ==>
        merged[i].id == items[i].id && merged[i].votes == PickCount(st, items[i].id)
    ensures SharedLead(st, items)
  {
    var i, j :| 0 <= i < j < |merged| && merged[i].votes == TopVotes(merged) && merged[j].votes == TopVotes(merged);
    TopIsMostPicks(st, items, merged, i);
    assert PickCount(st, items[i].id) == PickCount(st, items[j].id);
  }

  lemma LeadShowsTie(st: Ledger, items: seq<Item>, merged: seq<Item>)
    requires |merged| == |items| && SharedLead(st, items)
    requires forall i :: 0 <= i < |items| ==>
        merged[i].id == items[i].id && merged[i].votes == PickCount(st, items[i].id)
    ensures SharedTop(merged)
  {
    var i, j :| 0 <= i < j < |items| && PickCount(st, items[i].id) == PickCount(st, items[j].id) &&
        MostPicks(st, items, items[i].id);
    TopIsMostPicks(st, items, merged, i);
    assert merged[i].votes == TopVotes(merged) && merged[j].votes == TopVotes(merged);
  }

  lemma TopIsMostPicks(st: Ledger, items: seq<Item>, merged: seq<Item>, i: nat)
    requires i < |items| && |merged| == |items|
    requires forall i :: 0 <= i < |items| ==>
        merged[i].id == items[i].id && merged[i].votes == PickCount(st, items[i].id)
    ensures merged[i].votes == TopVotes(merged) <==> MostPicks(st, items, items[i].id)
  {
    var best := TopVotesIsMax(merged);
    var b :| 0 <= b < |merged| && merged[b] == best;
    assert merged[i] in merged;
    if merged[i].votes == TopVotes(merged) {
      forall k | 0 <= k < |items|
        ensures PickCount(st, items[k].id) <= PickCount(st, items[i].id)
      {
        assert merged[k] in merged;
      }
    } else {
      assert PickCount(st, items[b].id) > PickCount(st, items[i].id);
    }
  }

  // ---- a flush that is half done ----

  function Voted(u: nat): Ballot {
    Ballot(User(u), 7)
  }

  function Vote(u: nat, x: nat): seq<Step> {
    AloneSteps(0, Voted(u), Pick(x))
  }

  lemma TakeExtends(start: Ledger, steps: seq<Step>, st: Ledger, x: nat)
    requires Orderly(start, steps) && Run(start, steps) == st
    ensures Orderly(start, steps + [FlushTake(x)]) && Run(start, steps + [FlushTake(x)]) == FlushTakeStep(st, x)
  {
    NoBeginIsOrderly(st, [FlushTake(x)]);
    OrderlyConcat(start, steps, [FlushTake(x)]);
    RunSnoc(start, steps, FlushTake(x));
  }

  /** Two votes for item 1, the worker's swap, and a vote for item 2. */
  function HalfFlushed(): seq<Step> {
    [] + Vote(1, 1) + Vote(2, 1) + [FlushTake(1)] + Vote(3, 2)
  }

  function HalfFlushedState(): Ledger {
    Ledger(map[Voted(1) := Pick(1), Voted(2) := Pick(1), Voted(3) := Pick(2)],
           map[1 := 0, 2 := 0], map[1 := 0, 2 := 1], map[1 := 2], map[])
  }

  function OneVoted(): Ledger {
    Ledger(map[Voted(1) := Pick(1)], map[1 := 0, 2 := 0], map[1 := 1], map[], map[])
  }

  lemma OneVoteRuns()
    ensures Orderly(Fresh({1, 2}), [] + Vote(1, 1)) && Run(Fresh({1, 2}), [] + Vote(1, 1)) == OneVoted()
  {
    var start := Fresh({1, 2});
    assert start.stored == map[1 := 0, 2 := 0];
    AloneExtends(start, [], start, Voted(1), Pick(1));
    assert Settled(start, Voted(1), Pick(1)) == OneVoted();
  }

  lemma HalfFlushedRuns()
    ensures Orderly(Fresh({1, 2}), HalfFlushed()) && Run(Fresh({1, 2}), HalfFlushed()) == HalfFlushedState()
  {
    var start, one := Fresh({1, 2}), OneVoted();
    var two := one.(rows := map[Voted(1) := Pick(1), Voted(2) := Pick(1)], buffer := map[1 := 2]);
    var taken := two.(buffer := map[1 := 0], held := map[1 := 2]);
    OneVoteRuns();
    AloneExtends(start, [] + Vote(1, 1), one, Voted(2), Pick(1));
    assert Settled(one, Voted(2), Pick(1)) == two;
    TakeExtends(start, [] + Vote(1, 1) + Vote(2, 1), two, 1);
    assert FlushTakeStep(two, 1) == taken;
    AloneExtends(start, [] + Vote(1, 1) + Vote(2, 1) + [FlushTake(1)], taken, Voted(3), Pick(2));
    assert Settled(taken, Voted(3), Pick(2)) == HalfFlushedState();
  }

  /**
   The wrong winner: no request is in flight and nothing is owed, item 1 has two pick rows and
   item 2 has one, and a complete and an advance both choose item 2.
   */
  lemma HalfFlushPicksWrongWinner()
    ensures Orderly(Fresh({1, 2}), HalfFlushed()) && Run(Fresh({1, 2}), HalfFlushed()) == HalfFlushedState()
    ensures HalfFlushedState().inflight == map[]
    ensures PickCount(HalfFlushedState(), 1) == 2 && PickCount(HalfFlushedState(), 2) == 1
    ensures var items := [Item(1, "Seed 1", 0), Item(2, "Seed 2", 0)];
            && Loaded(HalfFlushedState(), items, map[2 := 1])
            && CompleteWinner(Merged(items, map[2 := 1]), None) == Ok(2)
            && AdvanceWinner(Merged(items, map[2 := 1])) == Ok(2)
  {
    HalfFlushedRuns();
    HalfFlushedPicks();
    SecondLeads(Item(1, "Seed 1", 0), Item(2, "Seed 2", 1));
    assert Merged([Item(1, "Seed 1", 0), Item(2, "Seed 2", 0)], map[2 := 1])
        == [Item(1, "Seed 1", 0), Item(2, "Seed 2", 1)];
  }

  lemma HalfFlushedPicks()
    ensures PickCount(HalfFlushedState(), 1) == 2 && PickCount(HalfFlushedState(), 2) == 1
  {
    var rows := HalfFlushedState().rows;
    assert KeysWhere(rows, Picks(1)) == {Voted(1), Voted(2)};
    assert KeysWhere(rows, Picks(2)) == {Voted(3)};
  }

  lemma SecondLeads(first: Item, second: Item)
    requires second.votes > first.votes
    ensures CompleteWinner([first, second], None) == Ok(second.id) && AdvanceWinner([first, second]) == Ok(second.id)
  {
    assert [first, second] == [first] + [second];
    TopOfOne(first);
    TopItemsSnoc([first], second);
  }

  /** A vote for item 1, the worker's swap, and the same voter's change to item 2. */
  function TakenBack(): seq<Step> {
    [] + Vote(1, 1) + [FlushTake(1)] + Vote(1, 2)
  }

  function TakenBackState(): Ledger {
    Ledger(map[Voted(1) := Pick(2)], map[1 := 0, 2 := 0], map[1 := -1, 2 := 1], map[1 := 1], map[])
  }

  lemma TakenBackRuns()
    ensures Orderly(Fresh({1, 2}), TakenBack()) && Run(Fresh({1, 2}), TakenBack()) == TakenBackState()
  {
    var start := Fresh({1, 2});
    var taken := OneVoted().(buffer := map[1 := 0], held := map[1 := 1]);
    OneVoteRuns();
    TakeExtends(start, [] + Vote(1, 1), OneVoted(), 1);
    assert FlushTakeStep(OneVoted(), 1) == taken;
    AloneExtends(start, [] + Vote(1, 1) + [FlushTake(1)], taken, Voted(1), Pick(2));
    TakenBackSettles(taken);
  }

  lemma TakenBackSettles(taken: Ledger)
    requires taken == Ledger(map[Voted(1) := Pick(1)], map[1 := 0, 2 := 0], map[1 := 0], map[1 := 1], map[])
    ensures Settled(taken, Voted(1), Pick(2)) == TakenBackState()
  {
    assert Bump(Bump(taken.buffer, 2, 1), 1, -1) == map[1 := -1, 2 := 1];
  }

  /** In such a run the column and the buffer of item 1 add up to -1, and the read needs its floor. */
  lemma HalfFlushUsesFloor()
    ensures Orderly(Fresh({1, 2}), TakenBack()) && Run(Fresh({1, 2}), TakenBack()) == TakenBackState()
    ensures Loaded(TakenBackState(), [Item(1, "Seed 1", 0)], map[1 := -1])
    ensures Merged([Item(1, "Seed 1", 0)], map[1 := -1]) == [Item(1, "Seed 1", 0)]
  {
    TakenBackRuns();
  }
}

/**
 Choosing a matchup's winner: the owner's "complete" rule, which rejects ties, and the
 advance rule, which breaks ties by the lowest seed parsed from the labels.
 Votes are the merged counts: the stored column plus the buffered delta, floored at zero.
 Item ids are positive, as the database serial assigns them.
 */
module Winner {
  import opened Common
  import opened SeedLabels

  datatype Item = Item(id: nat, text: string, votes: int)

  datatype WinnerError = NoContenders | ForeignWinner | Tied

  predicate PositiveIds(items: seq<Item>) {
    forall i :: 0 <= i < |items| ==> items[i].id > 0
  }

  // ---- merged counts ----

  function MergedVotes(votes: int, delta: int): int {
    if votes + delta < 0 then 0 else votes + delta
  }

  function MergedItem(item: Item, deltas: map<nat, int>): Item {
    if item.id in deltas then item.(votes := MergedVotes(item.votes, deltas[item.id])) else item
  }

  /** Adds the pending deltas to the items in place; an absent delta leaves its item alone. */
  method ApplyVoteDeltas(items: array<Item>, deltas: map<nat, int>)
    modifies items
    ensures forall i :: 0 <= i < items.Length ==> items[i] == MergedItem(old(items[i]), deltas)
  {
    for i := 0 to items.Length
      invariant forall j :: 0 <= j < i ==> items[j] == MergedItem(old(items[j]), deltas)
      invariant forall j :: i <= j < items.Length ==> items[j] == old(items[j])
    {
      if items[i].id in deltas {
        var adjusted := items[i].votes + deltas[items[i].id];
        if adjusted < 0 {
          adjusted := 0;
        }
        items[i] := items[i].(votes := adjusted);
      }
    }
  }

  // ---- the items that share the top count ----

  function TopVotes(items: seq<Item>): int
    requires items != []
  {
    var last := items[|items| - 1].votes;
    if |items| == 1 then last
    else
      var max := TopVotes(items[..|items| - 1]);
      if last > max then last else max
  }

  lemma {:induction false} TopVotesIsMax(items: seq<Item>) returns (top: Item)
    requires items != []
    ensures top in items && top.votes == TopVotes(items)
    ensures forall x :: x in items ==> x.votes <= TopVotes(items)
  {
    var last := items[|items| - 1];
    top := last;
    if |items| > 1 {
      var before := TopVotesIsMax(items[..|items| - 1]);
      if last.votes <= before.votes {
        top := before;
      }
      assert items == items[..|items| - 1] + [last];
    }
  }

  function WithVotes(items: seq<Item>, votes: int): seq<Item> {
    if items == [] then []
    else
      var r := WithVotes(items[..|items| - 1], votes);
      var last := items[|items| - 1];
      if last.votes == votes then r + [last] else r
  }

  lemma {:induction false} WithVotesMembers(items: seq<Item>, votes: int)
    ensures forall x :: x in WithVotes(items, votes) <==> x in items && x.votes == votes
  {
    if items != [] {
      WithVotesMembers(items[..|items| - 1], votes);
      assert items == items[..|items| - 1] + [items[|items| - 1]];
    }
  }

  /** The items with the most votes, in their given order. */
  function TopItems(items: seq<Item>): (top: seq<Item>)
    requires items != []
    ensures top != []
  {
    TopIsReached(items);
    WithVotes(items, TopVotes(items))
  }

  lemma TopIsReached(items: seq<Item>)
    requires items != []
    ensures WithVotes(items, TopVotes(items)) != []
  {
    var top := TopVotesIsMax(items);
    WithVotesMembers(items, TopVotes(items));
    assert top in WithVotes(items, TopVotes(items));
  }

  /** An item is on top exactly when no item has more votes. */
  lemma TopItemsMembers(items: seq<Item>)
    requires items != []
    ensures forall x :: x in TopItems(items) <==> x in items && forall y :: y in items ==> y.votes <= x.votes
  {
    var top := TopVotesIsMax(items);
    WithVotesMembers(items, TopVotes(items));
  }

  lemma {:induction false} NoneAboveTop(items: seq<Item>, votes: int)
    requires forall x :: x in items ==> x.votes < votes
    ensures WithVotes(items, votes) == []
  {
    if items != [] {
      NoneAboveTop(items[..|items| - 1], votes);
    }
  }

  lemma TopOfOne(item: Item)
    ensures TopVotes([item]) == item.votes && TopItems([item]) == [item]
  {
    assert [item][..0] == [] && WithVotes([], item.votes) == [];
  }

  /** How one more item changes the top: it starts a new top, joins it, or is ignored. */
  lemma TopItemsSnoc(items: seq<Item>, item: Item)
    requires items != []
    ensures TopVotes(items + [item]) == if item.votes > TopVotes(items) then item.votes else TopVotes(items)
    ensures TopItems(items + [item]) ==
            if item.votes > TopVotes(items) then [item]
            else if item.votes == TopVotes(items) then TopItems(items) + [item]
            else TopItems(items)
  {
    var more := items + [item];
    assert more[..|more| - 1] == items;
    if item.votes > TopVotes(items) {
      var top := TopVotesIsMax(items);
      NoneAboveTop(items, item.votes);
    }
  }

  /** The same for the prefixes that the loops below read. */
  lemma TopItemsNext(items: seq<Item>, i: nat)
    requires 1 <= i < |items|
    ensures var top := TopVotes(items[..i]);
            && TopVotes(items[..i + 1]) == (if items[i].votes > top then items[i].votes else top)
            && TopItems(items[..i + 1]) ==
               if items[i].votes > top then [items[i]]
               else if items[i].votes == top then TopItems(items[..i]) + [items[i]]
               else TopItems(items[..i])
  {
    assert items[..i + 1] == items[..i] + [items[i]];
    TopItemsSnoc(items[..i], items[i]);
  }

  lemma {:induction false} SomeWithVotes(items: seq<Item>, votes: int)
    ensures WithVotes(items, votes) != [] <==> exists i :: 0 <= i < |items| && items[i].votes == votes
  {
    if items != [] {
      SomeWithVotes(items[..|items| - 1], votes);
    }
  }

  lemma {:induction false} SharedVotes(items: seq<Item>, votes: int)
    ensures |WithVotes(items, votes)| >= 2 <==>
            exists i, j :: 0 <= i < j < |items| && items[i].votes == votes && items[j].votes == votes
  {
    if items != [] {
      SomeWithVotes(items[..|items| - 1], votes);
      SharedVotes(items[..|items| - 1], votes);
    }
  }

  // ---- the complete rule ----

  predicate HasId(items: seq<Item>, id: nat) {
    exists i :: 0 <= i < |items| && items[i].id == id
  }

  function CompleteWinner(items: seq<Item>, chosen: Option<nat>): Result<nat, WinnerError> {
    if items == [] then Err(NoContenders)
    else if chosen.Some? then (if HasId(items, chosen.value) then Ok(chosen.value) else Err(ForeignWinner))
    else if |TopItems(items)| > 1 then Err(Tied)
    else Ok(TopItems(items)[0].id)
  }

  method DetermineMatchupWinner(items: seq<Item>, chosen: Option<nat>) returns (r: Result<nat, WinnerError>)
    ensures r == CompleteWinner(items, chosen)
  {
    if |items| == 0 {
      return Err(NoContenders);
    }
    if chosen.Some? {
      for i := 0 to |items|
        invariant forall j :: 0 <= j < i ==> items[j].id != chosen.value
      {
        if items[i].id == chosen.value {
          return Ok(chosen.value);
        }
      }
      return Err(ForeignWinner);
    }
    var winnerId, topCount := CountLeaders(items);
    if topCount > 1 {
      return Err(Tied);
    }
    return Ok(winnerId);
  }

  /** The counting loop of the complete rule. */
  method CountLeaders(items: seq<Item>) returns (winnerId: nat, topCount: nat)
    requires items != []
    ensures winnerId == TopItems(items)[0].id
    ensures topCount == |TopItems(items)|
  {
    ghost var top := [items[0]];
    var maxVotes := items[0].votes;
    winnerId := items[0].id;
    topCount := 1;
    assert items[..1] == top;
    TopOfOne(items[0]);
    for i := 1 to |items|
      invariant maxVotes == TopVotes(items[..i])
      invariant top == TopItems(items[..i])
      invariant topCount == |top| && |top| >= 1
      invariant winnerId == top[0].id
    {
      var item := items[i];
      TopItemsNext(items, i);
      if item.votes > maxVotes {
        maxVotes := item.votes;
        winnerId := item.id;
        topCount := 1;
        top := [item];
      } else if item.votes == maxVotes {
        topCount := topCount + 1;
        top := top + [item];
      }
    }
    assert items[..|items|] == items;
  }

  /** The variant without a tie check: the first of the items with the most votes. */
  method DetermineMatchupWinnerByVotes(items: seq<Item>) returns (r: Result<nat, WinnerError>)
    ensures r.Err? <==> items == []
    ensures r.Err? ==> r == Err(NoContenders)
    ensures r.Ok? ==> r.value == TopItems(items)[0].id
  {
    if |items| == 0 {
      return Err(NoContenders);
    }
    var maxVotes, winnerId := items[0].votes, items[0].id;
    assert items[..1] == [items[0]];
    TopOfOne(items[0]);
    for i := 1 to |items|
      invariant maxVotes == TopVotes(items[..i])
      invariant winnerId == TopItems(items[..i])[0].id
    {
      TopItemsNext(items, i);
      if items[i].votes > maxVotes {
        maxVotes, winnerId := items[i].votes, items[i].id;
      }
    }
    assert items[..|items|] == items;
    return Ok(winnerId);
  }

  lemma SingleTopBeatsAll(items: seq<Item>, x: Item)
    requires items != [] && TopItems(items) == [x]
    ensures x in items && forall y :: y in items && y != x ==> y.votes < x.votes
  {
    TopItemsMembers(items);
    assert x in TopItems(items);
    forall y | y in items && y != x
      ensures y.votes < x.votes
    {
      assert y !in TopItems(items);
    }
  }

  /** Without a chosen winner, completing picks the strict leader and rejects a shared top. */
  lemma CompleteWinnerMeaning(items: seq<Item>)
    requires items != []
    ensures CompleteWinner(items, None) == Err(Tied) <==> |TopItems(items)| >= 2
    ensures forall w :: CompleteWinner(items, None) == Ok(w) ==>
              exists x :: x in items && x.id == w && forall y :: y in items && y != x ==> y.votes < x.votes
  {
    if |TopItems(items)| == 1 {
      SingleTopBeatsAll(items, TopItems(items)[0]);
    }
  }

  // ---- the advance rule ----

  /** The first item with the lowest parsed seed; items without a seed do not compete. */
  function BestSeeded(items: seq<Item>): (best: Option<Item>)
    ensures best.Some? ==> best.value in items && ParseSeedValue(best.value.text).Some?
  {
    if items == [] then None
    else
      var best := BestSeeded(items[..|items| - 1]);
      var last := items[|items| - 1];
      var seed := ParseSeedValue(last.text);
      if seed.Some? && (best.None? || seed.value < ParseSeedValue(best.value.text).value) then Some(last) else best
  }

  lemma {:induction false} BestSeededIsLowest(items: seq<Item>)
    ensures var best := BestSeeded(items);
            forall x :: x in items && ParseSeedValue(x.text).Some? ==>
              best.Some? && ParseSeedValue(best.value.text).value <= ParseSeedValue(x.text).value
  {
    if items != [] {
      BestSeededIsLowest(items[..|items| - 1]);
      assert items == items[..|items| - 1] + [items[|items| - 1]];
    }
  }

  function AdvanceWinner(items: seq<Item>): Result<nat, WinnerError> {
    if items == [] then Err(NoContenders)
    else
      var top := TopItems(items);
      if |top| == 1 then Ok(top[0].id)
      else
        var best := BestSeeded(top);
        if best.Some? then Ok(best.value.id) else Err(Tied)
  }

  method DetermineMatchupWinnerByVotesOrSeed(items: seq<Item>) returns (r: Result<nat, WinnerError>)
    requires PositiveIds(items)
    ensures r == AdvanceWinner(items)
  {
    if |items| == 0 {
      return Err(NoContenders);
    }
    var tied := CollectTied(items);
    if |tied| == 1 {
      return Ok(tied[0].id);
    }
    TopItemsMembers(items);
    var bestId := LowestSeedId(tied);
    if bestId != 0 {
      return Ok(bestId);
    }
    return Err(Tied);
  }

  /** The first loop of the advance rule. */
  method CollectTied(items: seq<Item>) returns (tied: seq<Item>)
    requires items != []
    ensures tied == TopItems(items)
  {
    var maxVotes := items[0].votes;
    tied := [items[0]];
    assert items[..1] == [items[0]];
    TopOfOne(items[0]);
    for i := 1 to |items|
      invariant maxVotes == TopVotes(items[..i])
      invariant tied == TopItems(items[..i])
    {
      var item := items[i];
      TopItemsNext(items, i);
      if item.votes > maxVotes {
        maxVotes, tied := item.votes, [item];
      } else if item.votes == maxVotes {
        tied := tied + [item];
      }
    }
    assert items[..|items|] == items;
  }

  /** The second loop of the advance rule: id zero stands for "none yet". */
  method LowestSeedId(tied: seq<Item>) returns (bestId: nat)
    requires forall x :: x in tied ==> x.id > 0
    ensures BestSeeded(tied).None? ==> bestId == 0
    ensures BestSeeded(tied).Some? ==> bestId == BestSeeded(tied).value.id
  {
    var bestSeed := 0;
    bestId := 0;
    for i := 0 to |tied|
      invariant var best := BestSeeded(tied[..i]);
                if best.None? then bestId == 0
                else bestId == best.value.id && bestId > 0 && bestSeed == ParseSeedValue(best.value.text).value
    {
      assert tied[..i + 1][..i] == tied[..i];
      var seed, ok := ParseSeedLoop(tied[i].text);
      if ok && (bestId == 0 || seed < bestSeed) {
        bestSeed, bestId := seed, tied[i].id;
      }
    }
    assert tied[..|tied|] == tied;
  }

  /** The winner has the most votes, and among equals the lowest seed. */
  lemma AdvanceWinnerMeaning(items: seq<Item>)
    requires items != []
    ensures AdvanceWinner(items) == Err(Tied) <==>
            |TopItems(items)| >= 2 && forall x :: x in TopItems(items) ==> ParseSeedValue(x.text).None?
    ensures forall w :: AdvanceWinner(items) == Ok(w) ==>
              exists x :: && x in items && x.id == w
                          && (forall y :: y in items ==> y.votes <= x.votes)
                          && (|TopItems(items)| >= 2 ==> ParseSeedValue(x.text).Some?)
                          && (|TopItems(items)| >= 2 ==>
                              forall y :: y in items && y.votes == x.votes && ParseSeedValue(y.text).Some? ==>
                                ParseSeedValue(x.text).value <= ParseSeedValue(y.text).value)
  {
    var top := TopItems(items);
    TopItemsMembers(items);
    BestSeededIsLowest(top);
    if |top| == 1 {
      assert top[0] in items;
    } else if BestSeeded(top).Some? {
      var x := BestSeeded(top).value;
      assert x in items;
      forall y | y in items && y.votes == x.votes
        ensures y in top
      {
      }
    }
  }

  /** Advancing agrees with completing wherever completing succeeds. */
  lemma AdvanceRefinesComplete(items: seq<Item>)
    requires CompleteWinner(items, None).Ok?
    ensures AdvanceWinner(items) == CompleteWinner(items, None)
  {
  }

  // ---- two contenders ----

  /** The two-item case in closed form: more votes, else lower seed. */
  lemma TwoContenders(a: Item, b: Item)
    requires ParseSeedValue(a.text).Some? && ParseSeedValue(b.text).Some?
    ensures AdvanceWinner([a, b]) ==
            Ok(if a.votes > b.votes then a.id
               else if b.votes > a.votes then b.id
               else if ParseSeedValue(b.text).value < ParseSeedValue(a.text).value then b.id
               else a.id)
  {
    assert [a, b] == [a] + [b];
    TopOfOne(a);
    TopItemsSnoc([a], b);
    BestOfTwo(a, b);
  }

  lemma BestOfTwo(a: Item, b: Item)
    requires ParseSeedValue(a.text).Some? && ParseSeedValue(b.text).Some?
    ensures BestSeeded([a, b]) == Some(if ParseSeedValue(b.text).value < ParseSeedValue(a.text).value then b else a)
  {
    assert [a, b][..1] == [a] && [a][..0] == [];
    assert BestSeeded([a]) == Some(a);
  }

  /**
   The bracket query loads a matchup's two items in no particular order. With different
   seeds on the labels the order cannot change the winner.
   */
  lemma LoadOrderIrrelevant(a: Item, b: Item)
    requires ParseSeedValue(a.text).Some? && ParseSeedValue(b.text).Some?
    requires ParseSeedValue(a.text) != ParseSeedValue(b.text)
    ensures AdvanceWinner([a, b]) == AdvanceWinner([b, a])
  {
    TwoContenders(a, b);
    TwoContenders(b, a);
  }
}

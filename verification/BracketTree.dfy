/**
 The tree invariant of a generated bracket and its preservation by every step: earlier rounds
 are decided, the current round has two contenders per matchup, later rounds are empty, and
 matchup i of a round holds the winner labels of matchups 2i and 2i+1 of the round before.
 */
module BracketTree {
  import opened Common
  import opened SeedOrder
  import opened Bracket

  // ---- one matchup ----

  ghost predicate TwoItems(m: Matchup) {
    |m.items| == 2 && 0 < m.items[0].id && 0 < m.items[1].id && m.items[0].id != m.items[1].id
  }

  ghost predicate OwnWinner(m: Matchup)
    requires TwoItems(m)
  {
    m.winner.Some? ==> m.winner.value == m.items[0].id || m.winner.value == m.items[1].id
  }

  /** Two contenders; a winner, if chosen, is one of them; completed only with a winner. */
  ghost predicate Live(m: Matchup) {
    TwoItems(m) && OwnWinner(m) && (m.status == Completed ==> m.winner.Some?)
  }

  ghost predicate Past(m: Matchup) {
    Live(m) && Decided(m)
  }

  ghost predicate Blank(m: Matchup) {
    m.items == [] && m.winner == None && m.status != Completed
  }

  ghost predicate Fits(current: int, round: int, m: Matchup) {
    if round < current then Past(m) else if round == current then Live(m) else Blank(m)
  }

  /** The label of the chosen winner. */
  ghost function Sent(m: Matchup): string
    requires Live(m) && m.winner.Some?
  {
    if m.winner.value == m.items[0].id then m.items[0].text else m.items[1].text
  }

  lemma SentIsWinnerText(m: Matchup)
    requires Live(m) && m.winner.Some?
    ensures WinnerText(m) == Ok(Sent(m))
  {
    var w := m.winner.value;
    assert m.items[1..] == [m.items[1]];
    assert ItemText(m.items[1..], w) == if m.items[1].id == w then Some(m.items[1].text) else ItemText([], w);
  }

  ghost predicate SameTexts(m: Matchup, m': Matchup) {
    TwoItems(m) && TwoItems(m') && m.items[0].text == m'.items[0].text && m.items[1].text == m'.items[1].text
  }

  // ---- the whole tree ----

  ghost predicate Shape(k: nat, rounds: seq<seq<Matchup>>) {
    |rounds| == k && forall r :: 0 <= r < k ==> |rounds[r]| == Pow2(k - 1 - r)
  }

  ghost predicate AllFit(current: int, rounds: seq<seq<Matchup>>) {
    forall r, i :: 0 <= r < |rounds| && 0 <= i < |rounds[r]| ==> Fits(current, r + 1, rounds[r][i])
  }

  ghost predicate Texts(m: Matchup, a: string, b: string) {
    |m.items| == 2 && m.items[0].text == a && m.items[1].text == b
  }

  /** Matchup i of round r+2 (0-based r+1) holds what matchups 2i and 2i+1 of the round before sent. */
  ghost predicate Fed(rounds: seq<seq<Matchup>>, r: nat, i: nat)
    requires r + 1 < |rounds| && i < |rounds[r + 1]| && 2 * i + 1 < |rounds[r]|
  {
    var a, b := rounds[r][2 * i], rounds[r][2 * i + 1];
    Past(a) && Past(b) && Texts(rounds[r + 1][i], Sent(a), Sent(b))
  }

  ghost predicate AllFed(k: nat, current: int, rounds: seq<seq<Matchup>>)
    requires Shape(k, rounds)
  {
    forall r: nat, i: nat {:trigger Fed(rounds, r, i)} ::
      r + 1 < k && r + 1 < current && i < |rounds[r + 1]| ==> 2 * i + 1 < |rounds[r]| && Fed(rounds, r, i)
  }

  ghost predicate Seeded(k: nat, labels: seq<string>, round1: seq<Matchup>)
    requires k >= 1 && |round1| == Pow2(k - 1)
  {
    forall i: nat {:trigger round1[i]} :: i < Pow2(k - 1) ==> SeededMatchup(k, labels, round1[i], i)
  }

  /** The i-th matchup of the first round carries the labels of seed slots 2i and 2i+1. */
  ghost predicate SeededMatchup(k: nat, labels: seq<string>, m: Matchup, i: nat)
    requires k >= 1 && i < Pow2(k - 1)
  {
    Texts(m, LabelFor(labels, SeedAt(k, 2 * i)), LabelFor(labels, SeedAt(k, 2 * i + 1)))
  }

  /** The invariant of every run from the generated bracket of 2^k entries with the given seed labels. */
  ghost predicate Tree(k: nat, labels: seq<string>, st: State) {
    && k >= 1 && 1 <= st.row.currentRound <= k && st.nextItemId > 0
    && Shape(k, st.rounds)
    && AllFit(st.row.currentRound, st.rounds)
    && AllFed(k, st.row.currentRound, st.rounds)
    && Seeded(k, labels, st.rounds[0])
  }

  lemma ChildrenExist(k: nat, rounds: seq<seq<Matchup>>, r: nat, i: nat)
    requires Shape(k, rounds) && r + 1 < k && i < |rounds[r + 1]|
    ensures |rounds[r]| == 2 * |rounds[r + 1]| && 2 * i + 1 < |rounds[r]|
  {
  }

  lemma GeneratedMatchup(k: nat, labels: seq<string>, r: nat, i: nat)
    requires r < k && i < Pow2(k - 1 - r)
    ensures Fits(1, r + 1, GeneratedRound(k, labels, r)[i])
    ensures r == 0 ==> SeededMatchup(k, labels, GeneratedRound(k, labels, r)[i], i)
  {
  }

  lemma GeneratedIsTree(k: nat, entries: seq<string>, mode: string, duration: int)
    requires k >= 1
    ensures Tree(k, Labels(k, entries), Generated(k, entries, mode, duration))
  {
    var labels, rounds := Labels(k, entries), Generated(k, entries, mode, duration).rounds;
    forall r, i | 0 <= r < k && 0 <= i < |rounds[r]|
      ensures Fits(1, r + 1, rounds[r][i])
    {
      GeneratedMatchup(k, labels, r, i);
    }
    forall i: nat | i < Pow2(k - 1)
      ensures SeededMatchup(k, labels, rounds[0][i], i)
    {
      GeneratedMatchup(k, labels, 0, i);
    }
  }

  // ---- changes that keep the tree ----

  /**
   A matchup may be rewritten when it still fits its round, keeps its labels, and, in an
   earlier round, keeps the label it sent on.
   */
  ghost predicate Carries(current: int, round: int, m: Matchup, m': Matchup) {
    && Fits(current, round, m) && Fits(current, round, m')
    && (round <= current ==> SameTexts(m, m'))
    && (round < current ==> Sent(m) == Sent(m'))
  }

  ghost predicate SameShape(rounds: seq<seq<Matchup>>, rounds': seq<seq<Matchup>>) {
    |rounds| == |rounds'| && forall r :: 0 <= r < |rounds| ==> |rounds[r]| == |rounds'[r]|
  }

  ghost predicate AllCarry(current: int, rounds: seq<seq<Matchup>>, rounds': seq<seq<Matchup>>)
    requires SameShape(rounds, rounds')
  {
    forall r, i {:trigger rounds'[r][i]} :: 0 <= r < |rounds| && 0 <= i < |rounds[r]| ==>
      Carries(current, r + 1, rounds[r][i], rounds'[r][i])
  }

  lemma FedCarries(current: int, rounds: seq<seq<Matchup>>, rounds': seq<seq<Matchup>>, r: nat, i: nat)
    requires SameShape(rounds, rounds') && r + 1 < |rounds| && r + 1 < current
    requires i < |rounds[r + 1]| && 2 * i + 1 < |rounds[r]| && Fed(rounds, r, i)
    requires Carries(current, r + 1, rounds[r][2 * i], rounds'[r][2 * i])
    requires Carries(current, r + 1, rounds[r][2 * i + 1], rounds'[r][2 * i + 1])
    requires Carries(current, r + 2, rounds[r + 1][i], rounds'[r + 1][i])
    ensures Fed(rounds', r, i)
  {
  }

  lemma CarryKeepsFed(k: nat, labels: seq<string>, st: State, rounds': seq<seq<Matchup>>, r: nat, i: nat)
    requires Tree(k, labels, st) && SameShape(st.rounds, rounds')
    requires AllCarry(st.row.currentRound, st.rounds, rounds')
    requires r + 1 < k && r + 1 < st.row.currentRound && i < |rounds'[r + 1]|
    ensures 2 * i + 1 < |rounds'[r]| && Fed(rounds', r, i)
  {
    var c := st.row.currentRound;
    ChildrenExist(k, st.rounds, r, i);
    assert Fed(st.rounds, r, i);
    assert Carries(c, r + 1, st.rounds[r][2 * i], rounds'[r][2 * i]);
    assert Carries(c, r + 1, st.rounds[r][2 * i + 1], rounds'[r][2 * i + 1]);
    assert Carries(c, r + 2, st.rounds[r + 1][i], rounds'[r + 1][i]);
    FedCarries(c, st.rounds, rounds', r, i);
  }

  lemma SeededCarries(k: nat, labels: seq<string>, m: Matchup, m': Matchup, i: nat)
    requires k >= 1 && i < Pow2(k - 1) && SeededMatchup(k, labels, m, i) && SameTexts(m, m')
    ensures SeededMatchup(k, labels, m', i)
  {
  }

  lemma CarryKeepsSeeded(k: nat, labels: seq<string>, st: State, rounds': seq<seq<Matchup>>)
    requires Tree(k, labels, st) && SameShape(st.rounds, rounds')
    requires AllCarry(st.row.currentRound, st.rounds, rounds')
    ensures Seeded(k, labels, rounds'[0])
  {
    forall i: nat | i < Pow2(k - 1)
      ensures SeededMatchup(k, labels, rounds'[0][i], i)
    {
      assert Carries(st.row.currentRound, 1, st.rounds[0][i], rounds'[0][i]);
      SeededCarries(k, labels, st.rounds[0][i], rounds'[0][i], i);
    }
  }

  lemma CarryKeepsTree(k: nat, labels: seq<string>, st: State, row: Row, rounds': seq<seq<Matchup>>)
    requires Tree(k, labels, st) && row.currentRound == st.row.currentRound
    requires SameShape(st.rounds, rounds') && AllCarry(row.currentRound, st.rounds, rounds')
    ensures Tree(k, labels, st.(row := row, rounds := rounds'))
  {
    CarryKeepsSeeded(k, labels, st, rounds');
    forall r: nat, i: nat | r + 1 < k && r + 1 < row.currentRound && i < |rounds'[r + 1]|
      ensures 2 * i + 1 < |rounds'[r]| && Fed(rounds', r, i)
    {
      CarryKeepsFed(k, labels, st, rounds', r, i);
    }
  }

  lemma ReplaceKeepsTree(k: nat, labels: seq<string>, st: State, round: int, i: int, m: Matchup)
    requires Tree(k, labels, st) && OnBoard(st, round, i)
    requires Carries(st.row.currentRound, round, st.rounds[round - 1][i], m)
    ensures Tree(k, labels, WithMatchup(st, round, i, m))
  {
    CarryKeepsTree(k, labels, st, st.row, WithMatchup(st, round, i, m).rounds);
  }

  /** Syncing to the same round re-opens the current matchups but keeps items and winners. */
  lemma SyncKeepsTree(k: nat, labels: seq<string>, st: State, row: Row)
    requires Tree(k, labels, st) && row.currentRound == st.row.currentRound
    ensures Tree(k, labels, st.(row := row, rounds := SyncRounds(st.rounds, row)))
  {
    CarryKeepsTree(k, labels, st, row, SyncRounds(st.rounds, row));
  }
}

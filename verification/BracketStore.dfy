/**
 The bracket row and its matchups as an object that the requests update in place. Every method
 is tied to the step function of the same name on the stored state.
 */
module BracketStore {
  import opened Common
  import opened SeedOrder
  import opened Winner
  import opened Dedupe
  import opened Bracket
  import opened BracketLayout
  import opened BracketRequests

  // ---- grouping the flat query result ----

  datatype MatchupRow = MatchupRow(round: Option<int>, matchup: Matchup)

  function InRound(rows: seq<MatchupRow>, round: int): seq<Matchup> {
    if rows == [] then []
    else
      var front, last := InRound(rows[..|rows| - 1], round), rows[|rows| - 1];
      if last.round == Some(round) then front + [last.matchup] else front
  }

  function RoundIn(rounds: map<int, seq<Matchup>>, round: int): seq<Matchup> {
    if round in rounds then rounds[round] else []
  }

  /** Appends each row to the list of its round; rows without a round are skipped. */
  method GroupMatchupsByRound(rows: seq<MatchupRow>) returns (rounds: map<int, seq<Matchup>>)
    ensures forall round :: RoundIn(rounds, round) == InRound(rows, round)
  {
    rounds := map[];
    for i := 0 to |rows|
      invariant forall round :: RoundIn(rounds, round) == InRound(rows[..i], round)
    {
      assert rows[..i + 1][..i] == rows[..i];
      if rows[i].round.Some? {
        var round := rows[i].round.value;
        rounds := rounds[round := RoundIn(rounds, round) + [rows[i].matchup]];
      }
    }
    assert rows[..|rows|] == rows;
  }

  function RowsOfRound(ms: seq<Matchup>, round: int): seq<MatchupRow> {
    if ms == [] then [] else RowsOfRound(ms[..|ms| - 1], round) + [MatchupRow(Some(round), ms[|ms| - 1])]
  }

  /** All rows in the query's order: by round, then by position in the round. */
  function Flattened(rounds: seq<seq<Matchup>>): seq<MatchupRow> {
    if rounds == [] then [] else Flattened(rounds[..|rounds| - 1]) + RowsOfRound(rounds[|rounds| - 1], |rounds|)
  }

  lemma {:induction false} InRoundOfConcat(a: seq<MatchupRow>, b: seq<MatchupRow>, round: int)
    ensures InRound(a + b, round) == InRound(a, round) + InRound(b, round)
  {
    if b == [] {
      assert a + b == a;
    } else {
      var front := b[..|b| - 1];
      assert (a + b)[..|a + b| - 1] == a + front;
      InRoundOfConcat(a, front, round);
    }
  }

  lemma {:induction false} InRoundOfRows(ms: seq<Matchup>, own: int, round: int)
    ensures InRound(RowsOfRound(ms, own), round) == if round == own then ms else []
  {
    if ms != [] {
      var rows := RowsOfRound(ms, own);
      assert rows[..|rows| - 1] == RowsOfRound(ms[..|ms| - 1], own);
      InRoundOfRows(ms[..|ms| - 1], own, round);
    }
  }

  /** Grouping the flattened rows gives the rounds back. */
  lemma {:induction false} GroupingInvertsFlattening(rounds: seq<seq<Matchup>>, round: int)
    ensures InRound(Flattened(rounds), round) == if 1 <= round <= |rounds| then rounds[round - 1] else []
  {
    if rounds != [] {
      var n := |rounds|;
      GroupingInvertsFlattening(rounds[..n - 1], round);
      InRoundOfRows(rounds[n - 1], n, round);
      InRoundOfConcat(Flattened(rounds[..n - 1]), RowsOfRound(rounds[n - 1], n), round);
    }
  }

  // ---- the loops of an advance ----

  /** Item ids are primary keys: positive, and different within a matchup. */
  ghost predicate KeyedItems(items: seq<Item>) {
    PositiveIds(items) && DistinctIds(WithKeys(items))
  }

  ghost predicate RoundIsKeyed(ms: seq<Matchup>) {
    forall i :: 0 <= i < |ms| ==> KeyedItems(ms[i].items)
  }

  ghost predicate CurrentIsKeyed(st: State) {
    1 <= st.row.currentRound <= |st.rounds| ==> RoundIsKeyed(st.rounds[st.row.currentRound - 1])
  }

  lemma StampIsKeyed(st: State, round: int, i: int, winner: nat)
    requires CurrentIsKeyed(st) && OnBoard(st, round, i)
    ensures CurrentIsKeyed(WithMatchup(st, round, i, Stamp(st.rounds[round - 1][i], winner)))
  {
  }

  ghost predicate RoundHasPositiveIds(ms: seq<Matchup>) {
    forall i :: 0 <= i < |ms| ==> PositiveIds(ms[i].items)
  }

  lemma DedupeKeepsPositiveIds(items: seq<Item>, winner: Option<nat>)
    requires PositiveIds(items) && DedupeItems(items, winner).Ok?
    ensures PositiveIds(DedupeItems(items, winner).value)
  {
    var entries := WithKeys(items);
    var kept := DedupeEntries(entries, winner).value;
    forall i | 0 <= i < |kept|
      ensures kept[i].item.id > 0
    {
      DedupeKeepsRows(entries, winner, kept[i]);
      var y :| y in entries && y.item.id == kept[i].item.id && y.item.text == kept[i].item.text;
    }
  }

  method DedupeMatchup(m: Matchup) returns (r: Result<Matchup, AdvanceError>)
    requires KeyedItems(m.items)
    ensures r == match DedupeItems(m.items, m.winner)
                 case Err(_) => Err(TooManyItems)
                 case Ok(items) => Ok(m.(items := items))
    ensures r.Ok? ==> PositiveIds(r.value.items)
  {
    var deduped, deleted := DedupeBracketMatchupItems(m.items, m.winner);
    if deduped.Err? {
      return Err(TooManyItems);
    }
    DedupeKeepsPositiveIds(m.items, m.winner);
    return Ok(m.(items := deduped.value));
  }

  method DedupeRound(ms: seq<Matchup>) returns (r: Result<seq<Matchup>, AdvanceError>)
    requires RoundIsKeyed(ms)
    ensures r == DedupeAll(ms)
    ensures r.Ok? ==> RoundHasPositiveIds(r.value)
  {
    r := Ok([]);
    for i := 0 to |ms|
      invariant r == DedupeAll(ms[..i])
      invariant r.Ok? ==> RoundHasPositiveIds(r.value)
    {
      assert ms[..i + 1][..i] == ms[..i];
      if r.Ok? {
        var deduped := DedupeMatchup(ms[i]);
        r := match deduped case Ok(m) => Ok(r.value + [m]) case Err(e) => Err(e);
      }
    }
    assert ms[..|ms|] == ms;
  }

  method FinalizeRound(ms: seq<Matchup>) returns (r: Result<seq<Matchup>, AdvanceError>)
    requires RoundHasPositiveIds(ms)
    ensures r == FinalizeAll(ms)
    ensures r.Ok? ==> RoundHasPositiveIds(r.value)
  {
    r := Ok([]);
    for i := 0 to |ms|
      invariant r == FinalizeAll(ms[..i])
      invariant r.Ok? ==> RoundHasPositiveIds(r.value)
    {
      assert ms[..i + 1][..i] == ms[..i];
      if r.Ok? {
        var m := ms[i];
        if !(m.status == Completed && m.winner.Some?) {
          var winner := DetermineMatchupWinnerByVotesOrSeed(m.items);
          if winner.Ok? {
            m := m.(winner := Some(winner.value), status := Completed);
            r := Ok(r.value + [m]);
          } else {
            r := Err(Undecidable);
          }
        } else {
          r := Ok(r.value + [m]);
        }
      }
    }
    assert ms[..|ms|] == ms;
  }

  /** Dedupe, then automatic winners in manual mode or after the timer. */
  method ResolveRound(ms: seq<Matchup>, auto: bool) returns (r: Result<seq<Matchup>, AdvanceError>)
    requires RoundIsKeyed(ms)
    ensures r == Resolved(ms, auto)
    ensures r.Ok? ==> RoundHasPositiveIds(r.value)
  {
    r := DedupeRound(ms);
    if r.Ok? && auto {
      r := FinalizeRound(r.value);
    }
  }

  method CollectRoundWinners(ms: seq<Matchup>) returns (r: Result<seq<string>, AdvanceError>)
    ensures r == CollectWinners(ms)
  {
    r := Ok([]);
    for i := 0 to |ms|
      invariant r == CollectWinners(ms[..i])
    {
      assert ms[..i + 1][..i] == ms[..i];
      if r.Ok? {
        if ms[i].status != Completed {
          r := Err(NotCompleted);
        } else {
          var text := WinnerText(ms[i]);
          r := match text case Ok(t) => Ok(r.value + [t]) case Err(e) => Err(e);
        }
      }
    }
    assert ms[..|ms|] == ms;
  }

  method HasItem(items: seq<Item>, id: nat) returns (found: bool)
    ensures found == HasId(items, id)
  {
    for j := 0 to |items|
      invariant forall x :: 0 <= x < j ==> items[x].id != id
    {
      if items[j].id == id {
        return true;
      }
    }
    return false;
  }

  method HasItems(ms: seq<Matchup>) returns (populated: bool)
    ensures populated == Populated(ms)
  {
    for i := 0 to |ms|
      invariant forall j :: 0 <= j < i ==> ms[j].items == []
    {
      if |ms[i].items| > 0 {
        return true;
      }
    }
    return false;
  }

  /** Walks the next round with the winner cursor `w`. */
  method PopulateRound(next: seq<Matchup>, winners: seq<string>, firstId: nat) returns (filled: seq<Matchup>)
    requires |winners| == 2 * |next|
    ensures filled == Populate(next, winners, firstId)
  {
    filled := [];
    var w := 0;
    for i := 0 to |next|
      invariant w == 2 * i && |filled| == i
      invariant filled == Populate(next, winners, firstId)[..i]
    {
      var nm := next[i].(items := [Item(firstId + w, winners[w], 0), Item(firstId + w + 1, winners[w + 1], 0)]);
      filled := filled + [nm];
      w := w + 2;
    }
  }

  class BracketStore {
    var row: Row
    var rounds: seq<seq<Matchup>>
    var nextItemId: nat

    ghost function Stored(): State
      reads this
    {
      State(row, rounds, nextItemId)
    }

    /** A new bracket without matchups. */
    constructor Create(mode: string, duration: int)
      ensures Stored() == State(NewRow(mode, duration), [], 1)
    {
      row := NewRow(mode, duration);
      rounds := [];
      nextItemId := 1;
    }

    /**
     Lays out all rounds of a new bracket of any size; an index out of range ends it after the
     matchups before it. For a power of two the result is the generated state.
     */
    method GenerateFullBracket(size: int, entries: seq<string>) returns (laidOut: bool)
      requires rounds == [] && nextItemId == 1
      modifies this`rounds, this`nextItemId
      ensures laidOut <==> size < 2 || NearPowerOfTwo(size)
      ensures if laidOut then LaidOut(size, entries, rounds) else CutShort(size, entries, rounds)
      ensures nextItemId == if rounds == [] then 1 else 2 * |rounds[0]| + 1
      ensures forall k: nat {:trigger Pow2(k)} :: k >= 1 && size == Pow2(k) && row == NewRow(row.mode, row.duration) ==>
                laidOut && Stored() == Generated(k, entries, row.mode, row.duration)
    {
      if size >= 2 {
        RoundOneSlotsExist(size);
      }
      rounds, laidOut := GenerateRounds(size, entries);
      nextItemId := if |rounds| == 0 then 1 else 2 * |rounds[0]| + 1;
      forall k: nat | k >= 1 && size == Pow2(k)
        ensures laidOut && rounds == GeneratedRounds(k, entries) && nextItemId == Pow2(k) + 1
      {
        assert PowerOfTwo(size);
        LaidOutIsGenerated(k, entries, rounds);
      }
    }

    method SetBracketRoundWindow(now: int)
      modifies this`row
      ensures row == RoundWindow(old(row), now)
    {
      if row.mode != "timer" {
        row := row.(startedAt := None, endsAt := None);
        return;
      }
      if row.duration <= 0 {
        row := row.(duration := DEFAULT_ROUND_DURATION);
      }
      row := row.(startedAt := Some(now), endsAt := Some(now + row.duration));
    }

    /** Earlier rounds become completed, the current one active, later ones drafts. */
    method SyncBracketMatchups()
      modifies this`rounds
      ensures rounds == SyncRounds(old(rounds), row)
    {
      var table := [];
      for r := 0 to |rounds|
        invariant |table| == r && rounds == old(rounds)
        invariant forall q :: 0 <= q < r ==> table[q] == SyncRound(rounds[q], q + 1, row)
      {
        var synced := SyncOneRound(rounds[r], r + 1);
        table := table + [synced];
      }
      rounds := table;
    }

    method SyncOneRound(ms: seq<Matchup>, round: int) returns (synced: seq<Matchup>)
      ensures synced == SyncRound(ms, round, row)
    {
      synced := [];
      for i := 0 to |ms|
        invariant synced == SyncRound(ms, round, row)[..i]
      {
        var m := ms[i];
        if round < row.currentRound {
          m := m.(status := Completed);
        } else if round == row.currentRound {
          var startTime, endTime := None, None;
          if row.mode == "timer" {
            startTime, endTime := row.startedAt, row.endsAt;
          }
          m := m.(status := Active, startTime := startTime, endTime := endTime);
        } else {
          m := m.(status := Draft, startTime := None, endTime := None);
        }
        synced := synced + [m];
      }
    }

    /** The locked transaction: all its writes, or none when it returns an error. */
    method Advance(now: int) returns (r: Result<bool, AdvanceError>)
      requires CurrentIsKeyed(Stored())
      modifies this
      ensures match Bracket.Advance(old(Stored()), now)
              case Ok(st) => r == Ok(true) && Stored() == st
              case Err(e) => r == Err(e) && Stored() == old(Stored())
    {
      var resolved := ResolveCurrent(now);
      if resolved.Err? {
        return Err(resolved.error);
      }
      r := MoveOn(resolved.value, now);
    }

    method ResolveCurrent(now: int) returns (r: Result<seq<Matchup>, AdvanceError>)
      requires CurrentIsKeyed(Stored())
      ensures r == ResolvedRound(Stored(), now)
      ensures r.Ok? ==> RoundHasPositiveIds(r.value)
    {
      var c := row.currentRound;
      if !(1 <= c <= |rounds|) || |rounds[c - 1]| == 0 {
        return Err(NoMatchups);
      }
      var auto := IsAutomatic(now);
      r := ResolveRound(rounds[c - 1], auto);
    }

    method IsAutomatic(now: int) returns (auto: bool)
      ensures auto == AutoFinalizes(row, now)
    {
      var roundExpired := row.mode == "timer" && row.endsAt.Some? && !(now < row.endsAt.value);
      var isManualMode := row.mode == "manual";
      auto := roundExpired || isManualMode;
    }

    method MoveOn(current: seq<Matchup>, now: int) returns (r: Result<bool, AdvanceError>)
      requires 1 <= row.currentRound <= |rounds| && RoundHasPositiveIds(current)
      modifies this
      ensures match Bracket.MoveOn(old(Stored()), current, now)
              case Ok(st) => r == Ok(true) && Stored() == st
              case Err(e) => r == Err(e) && Stored() == old(Stored())
    {
      var next := if row.currentRound < |rounds| then rounds[row.currentRound] else [];
      var populated := HasItems(next);
      if populated {
        return Err(NextRoundPopulated);
      }
      if |next| == 0 {
        r := FinishBracket(current, now);
      } else {
        r := OpenNextRound(current, now);
      }
    }

    method FinishBracket(current: seq<Matchup>, now: int) returns (r: Result<bool, AdvanceError>)
      requires 1 <= row.currentRound <= |rounds|
      requires RoundHasPositiveIds(current)
      modifies this
      ensures match AdvanceFinal(old(Stored()), current, now)
              case Ok(st) => r == Ok(true) && Stored() == st
              case Err(e) => r == Err(e) && Stored() == old(Stored())
    {
      var done := FinalizeRound(current);
      if done.Err? {
        return Err(done.error);
      }
      rounds := rounds[row.currentRound - 1 := done.value];
      row := row.(status := "completed", completedAt := Some(now));
      return Ok(true);
    }

    method OpenNextRound(current: seq<Matchup>, now: int) returns (r: Result<bool, AdvanceError>)
      requires 1 <= row.currentRound < |rounds|
      modifies this
      ensures match AdvanceOne(old(Stored()), current, now)
              case Ok(st) => r == Ok(true) && Stored() == st
              case Err(e) => r == Err(e) && Stored() == old(Stored())
    {
      var winners := CollectRoundWinners(current);
      if winners.Err? {
        return Err(winners.error);
      }
      var c := row.currentRound;
      var next := rounds[c];
      if |winners.value| != |next| * 2 {
        return Err(InvalidState);
      }
      var filled := PopulateRound(next, winners.value, nextItemId);
      rounds := rounds[c - 1 := current][c := filled];
      nextItemId := nextItemId + 2 * |next|;
      row := row.(currentRound := c + 1);
      SetBracketRoundWindow(now);
      SyncBracketMatchups();
      return Ok(true);
    }

    method StampMatchupWinner(round: int, i: int, winner: nat)
      requires OnBoard(Stored(), round, i)
      modifies this`rounds
      ensures Stored() == WithMatchup(old(Stored()), round, i, Stamp(old(rounds)[round - 1][i], winner))
    {
      var m := rounds[round - 1][i].(winner := Some(winner));
      rounds := rounds[round - 1 := rounds[round - 1][i := m.(status := Completed)]];
    }

    /** The guards that override, complete and resolve-tie share. */
    method IsOpenToOwner(round: int, i: int) returns (open: bool)
      ensures open == OpenToOwner(Stored(), round, i)
    {
      if !(1 <= round <= |rounds| && 0 <= i < |rounds[round - 1]|) {
        return false;
      }
      return row.status == "active" && round == row.currentRound;
    }

    method OverrideMatchupWinner(round: int, i: int, winner: nat)
      modifies this`rounds
      ensures Stored() == Override(old(Stored()), round, i, winner)
      ensures if InPlay(old(Stored()), round, i) && Offers(old(rounds)[round - 1][i], winner)
              then OnlyMatchup(old(Stored()), Stored(), round, i) &&
                   Crowned(old(rounds)[round - 1][i], rounds[round - 1][i], winner)
              else rounds == old(rounds)
    {
      OverrideCrowns(Stored(), round, i, winner);
      var open := IsOpenToOwner(round, i);
      if !open {
        return;
      }
      var valid := HasItem(rounds[round - 1][i].items, winner);
      if valid {
        StampMatchupWinner(round, i, winner);
      }
    }

    method CompleteMatchup(round: int, i: int)
      modifies this`rounds
      ensures Stored() == Complete(old(Stored()), round, i)
    {
      var open := IsOpenToOwner(round, i);
      if !open {
        return;
      }
      var m := rounds[round - 1][i];
      if m.status == Completed {
        rounds := rounds[round - 1 := rounds[round - 1][i := m.(status := Active, winner := None)]];
        return;
      }
      var winner := DetermineMatchupWinner(m.items, m.winner);
      if winner.Ok? {
        StampMatchupWinner(round, i, winner.value);
      }
    }

    method ReadyUpMatchup(round: int, i: int)
      modifies this`rounds
      ensures Stored() == ReadyUp(old(Stored()), round, i)
    {
      if !(1 <= round <= |rounds| && 0 <= i < |rounds[round - 1]|) {
        return;
      }
      var m := rounds[round - 1][i];
      if m.winner == None {
        return;
      }
      rounds := rounds[round - 1 := rounds[round - 1][i := m.(status := Completed)]];
    }

    /** The winner write stays even when the advance that follows is refused. */
    method ResolveTieAndAdvance(round: int, i: int, winner: nat, now: int)
      requires CurrentIsKeyed(Stored())
      modifies this
      ensures Stored() == ResolveTie(old(Stored()), round, i, winner, now)
    {
      var open := IsOpenToOwner(round, i);
      if !open {
        return;
      }
      var valid := HasItem(rounds[round - 1][i].items, winner);
      if valid {
        StampThenAdvance(round, i, winner, now);
      }
    }

    method StampThenAdvance(round: int, i: int, winner: nat, now: int)
      requires CurrentIsKeyed(Stored()) && OnBoard(Stored(), round, i)
      modifies this
      ensures var chosen := WithMatchup(old(Stored()), round, i, Stamp(old(rounds)[round - 1][i], winner));
              Stored() == AdvanceOrStay(chosen, now)
    {
      StampIsKeyed(Stored(), round, i, winner);
      StampMatchupWinner(round, i, winner);
      var advanced := Advance(now);
    }

    /** The write of an update whose read returned `seen`; the row may have changed since. */
    method UpdateBracket(seen: Row, req: UpdateRequest, now: int)
      modifies this
      ensures Stored() == WriteUpdate(old(Stored()), seen, req, now)
    {
      row := seen;
      EditRow(req, now);
      var activated := req.status.Some? && seen.status != "active" && req.status.value == "active";
      if activated || (req.mode.Some? && row.status == "active") {
        SyncBracketMatchups();
      }
    }

    method EditRow(req: UpdateRequest, now: int)
      modifies this`row
      ensures row == UpdatedRow(old(row), req, now)
    {
      var previousStatus := row.status;
      if req.status.Some? {
        row := row.(status := req.status.value);
      }
      if req.mode.Some? {
        row := row.(mode := req.mode.value);
      }
      if req.duration.Some? {
        row := row.(duration := req.duration.value);
      }
      var activate := req.status.Some? && previousStatus != "active" && row.status == "active";
      if row.mode != "timer" {
        row := row.(startedAt := None, endsAt := None);
      } else if row.status == "active" && (activate || (req.mode.Some? && row.endsAt == None)) {
        SetBracketRoundWindow(now);
      }
      row := Prepare(row);
    }
  }
}

/**
 Owner requests read the bracket in one statement and write in a later one, so a write can land
 after an advance has moved the round. For every such write: exactly when the tree survives it,
 and what becomes of a bracket whose round a stale update has set back.
 */
module BracketRaces {
  import opened Common
  import opened Winner
  import opened Bracket
  import opened BracketTree
  import opened BracketAdvance
  import opened BracketRuns

  /** A whole step, or the bare write of a request whose checks were made earlier. */
  datatype Write =
    | Whole(step: Step)
    | StampWrite(round: int, i: int, winner: nat)
    | ReopenWrite(round: int, i: int)
    | ReadyWrite(round: int, i: int)
    | RowWrite(seen: Row, req: UpdateRequest, now: int)

  predicate Lands(st: State, w: Write) {
    match w
    case StampWrite(round, i, winner) => OnBoard(st, round, i)
    case ReopenWrite(round, i) => OnBoard(st, round, i)
    case ReadyWrite(round, i) => OnBoard(st, round, i)
    case _ => true
  }

  function Land(st: State, w: Write): State
    requires Lands(st, w)
  {
    match w
    case Whole(step) => TakeStep(st, step)
    case StampWrite(round, i, winner) => WithMatchup(st, round, i, Stamp(st.rounds[round - 1][i], winner))
    case ReopenWrite(round, i) =>
      WithMatchup(st, round, i, st.rounds[round - 1][i].(status := Active, winner := None))
    case ReadyWrite(round, i) => WithMatchup(st, round, i, st.rounds[round - 1][i].(status := Completed))
    case RowWrite(seen, req, now) => WriteUpdate(st, seen, req, now)
  }

  /**
   What the checks of a request leave possible: a matchup of a round that has been reached, a
   winner among its items, and a stored row.
   */
  ghost predicate Plausible(st: State, w: Write) {
    Lands(st, w) &&
    match w
    case Whole(step) => true
    case StampWrite(round, i, winner) => round <= st.row.currentRound && HasId(st.rounds[round - 1][i].items, winner)
    case ReopenWrite(round, i) => round <= st.row.currentRound
    case ReadyWrite(round, i) => round <= st.row.currentRound
    case RowWrite(seen, req, now) => seen.currentRound >= 1
  }

  /** The write still fits: its round is current, or it repeats what is there. */
  ghost predicate Timely(st: State, w: Write)
    requires Lands(st, w)
  {
    match w
    case Whole(step) => true
    case StampWrite(round, i, winner) =>
      round == st.row.currentRound || st.rounds[round - 1][i].winner == Some(winner)
    case ReopenWrite(round, i) => round == st.row.currentRound
    case ReadyWrite(round, i) => st.rounds[round - 1][i].winner.Some?
    case RowWrite(seen, req, now) => seen.currentRound == st.row.currentRound
  }

  // ---- a write that arrives late ----

  /**
   The handlers read the bracket and write the winner in separate statements, so an override
   can land after an advance. On a populated matchup the tree survives such a late write exactly
   when the matchup is still in the current round or the write repeats its winner.
   */
  lemma LateStampKeepsTreeIff(k: nat, labels: seq<string>, st: State, round: int, i: int, winner: nat)
    requires Tree(k, labels, st) && Readable(k, labels) && OnBoard(st, round, i) && round <= st.row.currentRound
    requires HasId(st.rounds[round - 1][i].items, winner)
    ensures Tree(k, labels, WithMatchup(st, round, i, Stamp(st.rounds[round - 1][i], winner))) <==>
            round == st.row.currentRound || st.rounds[round - 1][i].winner == Some(winner)
  {
    var c, m := st.row.currentRound, st.rounds[round - 1][i];
    var m' := Stamp(m, winner);
    assert Fits(c, round, m);
    if round == c {
      StampKeepsTree(k, labels, st, round, i, winner);
    } else if m.winner == Some(winner) {
      ReplaceKeepsTree(k, labels, st, round, i, m');
    } else {
      LateStampMismatch(k, labels, st, round, i, winner);
    }
  }

  lemma StampChangesSent(k: nat, labels: seq<string>, st: State, round: int, i: int, winner: nat)
    requires Tree(k, labels, st) && Readable(k, labels) && OnBoard(st, round, i) && round < st.row.currentRound
    requires Past(st.rounds[round - 1][i])
    requires HasId(st.rounds[round - 1][i].items, winner) && st.rounds[round - 1][i].winner != Some(winner)
    ensures Sent(st.rounds[round - 1][i]) != Sent(Stamp(st.rounds[round - 1][i], winner))
  {
    ContendersHaveDistinctSeeds(k, labels, st, round - 1, i);
  }

  lemma LateStampMismatch(k: nat, labels: seq<string>, st: State, round: int, i: int, winner: nat)
    requires Tree(k, labels, st) && Readable(k, labels) && OnBoard(st, round, i) && round < st.row.currentRound
    requires HasId(st.rounds[round - 1][i].items, winner) && st.rounds[round - 1][i].winner != Some(winner)
    ensures !Tree(k, labels, WithMatchup(st, round, i, Stamp(st.rounds[round - 1][i], winner)))
  {
    var m := st.rounds[round - 1][i];
    var m' := Stamp(m, winner);
    var st' := WithMatchup(st, round, i, m');
    assert Fits(st.row.currentRound, round, m);
    StampChangesSent(k, labels, st, round, i, winner);
    ParentExists(k, st.rounds, round - 1, i);
    FedAt(k, st.row.currentRound, st.rounds, round - 1, i / 2);
    if Tree(k, labels, st') {
      FedAt(k, st.row.currentRound, st'.rounds, round - 1, i / 2);
      assert false;
    }
  }

  lemma ParentExists(k: nat, rounds: seq<seq<Matchup>>, r: nat, i: nat)
    requires Shape(k, rounds) && r + 1 < k && i < |rounds[r]|
    ensures i / 2 < |rounds[r + 1]|
  {
    ChildrenExist(k, rounds, r, 0);
  }

  // ---- a reopen or ready-up that arrives late ----

  lemma LateReopenKeepsTreeIff(k: nat, labels: seq<string>, st: State, round: int, i: int)
    requires Tree(k, labels, st) && Plausible(st, ReopenWrite(round, i))
    ensures Tree(k, labels, Land(st, ReopenWrite(round, i))) <==> round == st.row.currentRound
  {
    var c, m := st.row.currentRound, st.rounds[round - 1][i];
    var m' := m.(status := Active, winner := None);
    assert Fits(c, round, m);
    if round == c {
      ReplaceKeepsTree(k, labels, st, round, i, m');
    } else {
      MisfitBreaksTree(k, labels, Land(st, ReopenWrite(round, i)), round, i);
    }
  }

  lemma LateReadyKeepsTreeIff(k: nat, labels: seq<string>, st: State, round: int, i: int)
    requires Tree(k, labels, st) && Plausible(st, ReadyWrite(round, i))
    ensures Tree(k, labels, Land(st, ReadyWrite(round, i))) <==> st.rounds[round - 1][i].winner.Some?
  {
    var c, m := st.row.currentRound, st.rounds[round - 1][i];
    assert Fits(c, round, m);
    if m.winner.Some? {
      ReplaceKeepsTree(k, labels, st, round, i, m.(status := Completed));
    } else {
      MisfitBreaksTree(k, labels, Land(st, ReadyWrite(round, i)), round, i);
    }
  }

  lemma MisfitBreaksTree(k: nat, labels: seq<string>, st: State, round: int, i: int)
    requires OnBoard(st, round, i) && !Fits(st.row.currentRound, round, st.rounds[round - 1][i])
    ensures !Tree(k, labels, st)
  {
  }

  // ---- a row write that arrives late ----

  /** The update writes the round it has read back. */
  lemma WrittenRound(seen: Row, req: UpdateRequest, now: int)
    requires seen.currentRound >= 1
    ensures UpdatedRow(seen, req, now).currentRound == seen.currentRound
  {
  }

  /** A row write changes no items. */
  ghost predicate SameItems(rounds: seq<seq<Matchup>>, rounds': seq<seq<Matchup>>) {
    SameShape(rounds, rounds') &&
    forall r, i {:trigger rounds'[r][i]} :: 0 <= r < |rounds| && 0 <= i < |rounds[r]| ==>
      rounds'[r][i].items == rounds[r][i].items
  }

  lemma RowWriteKeepsItems(st: State, seen: Row, req: UpdateRequest, now: int)
    ensures SameItems(st.rounds, WriteUpdate(st, seen, req, now).rounds)
  {
  }

  /** The tree survives an update exactly when no advance came between its read and its write. */
  lemma LateUpdateKeepsTreeIff(k: nat, labels: seq<string>, st: State, seen: Row, req: UpdateRequest, now: int)
    requires Tree(k, labels, st) && seen.currentRound >= 1
    ensures Tree(k, labels, WriteUpdate(st, seen, req, now)) <==> seen.currentRound == st.row.currentRound
  {
    var row := UpdatedRow(seen, req, now);
    WrittenRound(seen, req, now);
    if seen.currentRound == st.row.currentRound {
      SyncKeepsTree(k, labels, st, row);
      SyncFreeRow(k, labels, st, row);
    } else {
      RowWriteKeepsItems(st, seen, req, now);
      ItemsTellRound(k, labels, st, WriteUpdate(st, seen, req, now));
    }
  }

  lemma PopulatedUpToCurrent(k: nat, labels: seq<string>, st: State, r: nat)
    requires Tree(k, labels, st) && r < k
    ensures st.rounds[r] != [] && (st.rounds[r][0].items != [] <==> r < st.row.currentRound)
  {
    assert Fits(st.row.currentRound, r + 1, st.rounds[r][0]);
  }

  /** The items alone tell the current round of a tree. */
  lemma ItemsTellRound(k: nat, labels: seq<string>, st: State, st': State)
    requires Tree(k, labels, st) && SameItems(st.rounds, st'.rounds)
    ensures Tree(k, labels, st') ==> st'.row.currentRound == st.row.currentRound
  {
    var c, c' := st.row.currentRound, st'.row.currentRound;
    var r: int := if c < c' then c else c';
    if Tree(k, labels, st') && r < k {
      PopulatedUpToCurrent(k, labels, st, r);
      assert st'.rounds[r][0].items == st.rounds[r][0].items;
      PopulatedUpToCurrent(k, labels, st', r);
    }
  }

  // ---- all writes ----

  /** Exactly the timely writes keep the tree. */
  lemma LandKeepsTreeIff(k: nat, labels: seq<string>, st: State, w: Write)
    requires Tree(k, labels, st) && Readable(k, labels) && Plausible(st, w)
    ensures Tree(k, labels, Land(st, w)) <==> Timely(st, w)
  {
    match w
    case Whole(step) => StepKeepsTree(k, labels, st, step);
    case StampWrite(round, i, winner) => LateStampKeepsTreeIff(k, labels, st, round, i, winner);
    case ReopenWrite(round, i) => LateReopenKeepsTreeIff(k, labels, st, round, i);
    case ReadyWrite(round, i) => LateReadyKeepsTreeIff(k, labels, st, round, i);
    case RowWrite(seen, req, now) => LateUpdateKeepsTreeIff(k, labels, st, seen, req, now);
  }

  /** The state after a run of writes; a write that names no matchup of the bracket does nothing. */
  function RunWrites(st: State, writes: seq<Write>): State {
    if writes == [] then st
    else
      var before, last := RunWrites(st, writes[..|writes| - 1]), writes[|writes| - 1];
      if Lands(before, last) then Land(before, last) else before
  }

  /** Every write of the run is plausible and timely when it lands. */
  ghost predicate AllTimely(st: State, writes: seq<Write>) {
    writes == [] ||
    var before, last := writes[..|writes| - 1], writes[|writes| - 1];
    AllTimely(st, before) && Plausible(RunWrites(st, before), last) && Timely(RunWrites(st, before), last)
  }

  /** Steps and separate writes, in any order: the tree holds as long as every write is timely. */
  lemma {:induction false} TimelyRunKeepsTree(k: nat, labels: seq<string>, start: State, writes: seq<Write>)
    requires Tree(k, labels, start) && Readable(k, labels) && AllTimely(start, writes)
    ensures Tree(k, labels, RunWrites(start, writes))
  {
    if writes != [] {
      var before := writes[..|writes| - 1];
      TimelyRunKeepsTree(k, labels, start, before);
      LandKeepsTreeIff(k, labels, RunWrites(start, before), writes[|writes| - 1]);
    }
  }

  // ---- a bracket that was set back ----

  /** The next round is populated although the current one has not been advanced. */
  ghost predicate Stuck(st: State) {
    1 <= st.row.currentRound < |st.rounds| && Populated(st.rounds[st.row.currentRound])
  }

  lemma StuckRefusesAdvance(st: State, now: int)
    requires Stuck(st)
    ensures Advance(st, now).Err? && AdvanceOrStay(st, now) == st
  {
  }

  lemma StuckSameItems(st: State, st': State)
    requires Stuck(st) && SameItems(st.rounds, st'.rounds) && st'.row.currentRound == st.row.currentRound
    ensures Stuck(st')
  {
    var next, next' := st.rounds[st.row.currentRound], st'.rounds[st.row.currentRound];
    var i :| 0 <= i < |next| && next[i].items != [];
    assert next'[i].items == next[i].items;
  }

  lemma StuckVotes(st: State, round: int, i: int, j: int, votes: nat)
    requires Stuck(st)
    ensures Stuck(CastVotes(st, round, i, j, votes))
  {
    var st' := CastVotes(st, round, i, j, votes);
    var next, next' := st.rounds[st.row.currentRound], st'.rounds[st.row.currentRound];
    var x :| 0 <= x < |next| && next[x].items != [];
    assert next'[x].items != [];
  }

  lemma StampStaysStuck(st: State, round: int, i: int, m: Matchup)
    requires Stuck(st) && OnBoard(st, round, i) && m.items == st.rounds[round - 1][i].items
    ensures Stuck(WithMatchup(st, round, i, m))
  {
    StuckSameItems(st, WithMatchup(st, round, i, m));
  }

  lemma StepStaysStuck(st: State, step: Step)
    requires Stuck(st)
    ensures Stuck(TakeStep(st, step)) && TakeStep(st, step).row.currentRound == st.row.currentRound
  {
    match step
    case Vote(round, i, j, votes) => StuckVotes(st, round, i, j, votes);
    case UpdateBracket(req, now) =>
      WrittenRound(st.row, req, now);
      RowWriteKeepsItems(st, st.row, req, now);
      StuckSameItems(st, TakeStep(st, step));
    case AdvanceBracket(now) => StuckRefusesAdvance(st, now);
    case ResolveTieAndAdvance(round, i, winner, now) =>
      if OpenToOwner(st, round, i) && HasId(st.rounds[round - 1][i].items, winner) {
        StampStaysStuck(st, round, i, Stamp(st.rounds[round - 1][i], winner));
        StuckRefusesAdvance(Override(st, round, i, winner), now);
      }
    case OverrideWinner(round, i, winner) =>
      if OpenToOwner(st, round, i) {
        StampStaysStuck(st, round, i, Stamp(st.rounds[round - 1][i], winner));
      }
    case CompleteMatchup(round, i) => CompleteStaysStuck(st, round, i);
    case ReadyUpMatchup(round, i) =>
      if OnBoard(st, round, i) {
        StampStaysStuck(st, round, i, st.rounds[round - 1][i].(status := Completed));
      }
  }

  lemma CompleteStaysStuck(st: State, round: int, i: int)
    requires Stuck(st)
    ensures Stuck(Complete(st, round, i)) && Complete(st, round, i).row == st.row
  {
    if OpenToOwner(st, round, i) {
      var m := st.rounds[round - 1][i];
      StampStaysStuck(st, round, i, m.(status := Active, winner := None));
      if CompleteWinner(m.items, m.winner).Ok? {
        StampStaysStuck(st, round, i, Stamp(m, CompleteWinner(m.items, m.winner).value));
      }
    }
  }

  /** No step ever gets a stuck bracket moving again. */
  lemma {:induction false} StuckForever(st: State, steps: seq<Step>, now: int)
    requires Stuck(st)
    ensures Stuck(Run(st, steps)) && Run(st, steps).row.currentRound == st.row.currentRound
    ensures Advance(Run(st, steps), now).Err?
  {
    if steps != [] {
      StuckForever(st, steps[..|steps| - 1], now);
      StepStaysStuck(Run(st, steps[..|steps| - 1]), steps[|steps| - 1]);
    }
    StuckRefusesAdvance(Run(st, steps), now);
  }

  /** An update that was read before an advance and written after it leaves the bracket stuck. */
  lemma StaleUpdateSticks(k: nat, labels: seq<string>, st: State, seen: Row, req: UpdateRequest, now: int)
    requires Tree(k, labels, st) && 1 <= seen.currentRound < st.row.currentRound
    ensures Stuck(WriteUpdate(st, seen, req, now))
    ensures WriteUpdate(st, seen, req, now).row.currentRound == seen.currentRound
  {
    var st', c' := WriteUpdate(st, seen, req, now), seen.currentRound;
    WrittenRound(seen, req, now);
    RowWriteKeepsItems(st, seen, req, now);
    PopulatedUpToCurrent(k, labels, st, c');
    assert st'.rounds[c'][0].items == st.rounds[c'][0].items;
  }

  lemma PopulatedError(st: State, current: seq<Matchup>, now: int)
    requires Stuck(st) && ResolvedRound(st, now) == Ok(current)
    ensures Advance(st, now) == Err(NextRoundPopulated)
  {
  }

  /** The current matchups of such a bracket can still be decided: their items are those of the tree. */
  lemma SetBackIsDecidable(k: nat, labels: seq<string>, st: State, st': State)
    requires Tree(k, labels, st) && Readable(k, labels) && SameItems(st.rounds, st'.rounds)
    requires 1 <= st'.row.currentRound <= st.row.currentRound
    ensures var current := st'.rounds[st'.row.currentRound - 1];
            current != [] && DedupeAll(current) == Ok(current) && FinalizeAll(current).Ok?
  {
    var r := st'.row.currentRound - 1;
    var current := st'.rounds[r];
    PopulatedUpToCurrent(k, labels, st, r);
    forall i | 0 <= i < |current|
      ensures |current[i].items| <= 2 && Finalize(current[i]).Ok?
    {
      assert current[i].items == st.rounds[r][i].items;
      ContendersHaveDistinctSeeds(k, labels, st, r, i);
      assert current[i].items == [current[i].items[0], current[i].items[1]];
      TwoContenders(current[i].items[0], current[i].items[1]);
    }
    DedupeAllChangesNothing(current);
    FinalizeAllDecides(current);
  }

  lemma SetBackError(k: nat, labels: seq<string>, st: State, st': State, now: int)
    requires Tree(k, labels, st) && Readable(k, labels) && SameItems(st.rounds, st'.rounds)
    requires st'.row.currentRound <= st.row.currentRound && Stuck(st')
    ensures Advance(st', now) == Err(NextRoundPopulated)
  {
    var was := st'.rounds[st'.row.currentRound - 1];
    SetBackIsDecidable(k, labels, st, st');
    ResolvedFrom(st', was, now);
    PopulatedError(st', if AutoFinalizes(st'.row, now) then FinalizeAll(was).value else was, now);
  }

  /** The advance of a bracket that was set back fails with the "already populated" error, always. */
  lemma StaleUpdateError(k: nat, labels: seq<string>, st: State, seen: Row, req: UpdateRequest, now: int, later: int)
    requires Tree(k, labels, st) && Readable(k, labels) && 1 <= seen.currentRound < st.row.currentRound
    ensures Advance(WriteUpdate(st, seen, req, now), later) == Err(NextRoundPopulated)
  {
    StaleUpdateSticks(k, labels, st, seen, req, now);
    RowWriteKeepsItems(st, seen, req, now);
    SetBackError(k, labels, st, WriteUpdate(st, seen, req, now), later);
  }

  // ---- both happen ----

  const TitleEdit := UpdateRequest(None, None, None)

  /** A manual bracket that was activated and advanced once. */
  lemma FirstAdvance(k: nat, entries: seq<string>, now: int) returns (active: State, advanced: State)
    requires k >= 2 && SizeFits(k)
    ensures active == Update(Generated(k, entries, "manual", 0), Activation, now)
    ensures Advance(active, now) == Ok(advanced) && active.row.currentRound == 1 && advanced.row.currentRound == 2
    ensures Tree(k, Labels(k, entries), advanced) && Readable(k, Labels(k, entries))
  {
    var start, labels := Generated(k, entries, "manual", 0), Labels(k, entries);
    GeneratedIsTree(k, entries, "manual", 0);
    PrintedLabelsAreReadable(k, entries);
    UpdateKeepsTree(k, labels, start, Activation, now);
    active := Update(start, Activation, now);
    AdvanceOutcome(k, labels, active, now);
    AdvanceKeepsTree(k, labels, active, now);
    advanced := Advance(active, now).value;
  }

  /**
   A title edit read before the advance and written after it: the tree breaks, the advance fails
   as "already populated", and it is refused after any further steps.
   */
  lemma StaleTitleEdit(k: nat, entries: seq<string>, now: int, steps: seq<Step>, later: int) returns (bad: State)
    requires k >= 2 && SizeFits(k)
    ensures var active := Update(Generated(k, entries, "manual", 0), Activation, now);
            Advance(active, now).Ok? && bad == WriteUpdate(Advance(active, now).value, active.row, TitleEdit, now)
    ensures !Tree(k, Labels(k, entries), bad) && Advance(bad, later) == Err(NextRoundPopulated)
    ensures Stuck(bad) && Advance(Run(bad, steps), later).Err?
  {
    var active, advanced := FirstAdvance(k, entries, now);
    bad := WriteUpdate(advanced, active.row, TitleEdit, now);
    LateUpdateKeepsTreeIff(k, Labels(k, entries), advanced, active.row, TitleEdit, now);
    StaleUpdateError(k, Labels(k, entries), advanced, active.row, TitleEdit, now, later);
    StaleUpdateSticks(k, Labels(k, entries), advanced, active.row, TitleEdit, now);
    StuckForever(bad, steps, later);
  }

  /** A stamp of the losing item and a reopen, both landing after the advance, break the tree. */
  lemma StaleMatchupWrites(k: nat, entries: seq<string>, now: int) returns (advanced: State, loser: nat)
    requires k >= 2 && SizeFits(k)
    ensures Advance(Update(Generated(k, entries, "manual", 0), Activation, now), now) == Ok(advanced)
    ensures Plausible(advanced, StampWrite(1, 0, loser)) && Plausible(advanced, ReopenWrite(1, 0))
    ensures !Tree(k, Labels(k, entries), Land(advanced, StampWrite(1, 0, loser)))
    ensures !Tree(k, Labels(k, entries), Land(advanced, ReopenWrite(1, 0)))
  {
    var labels := Labels(k, entries);
    var active, st := FirstAdvance(k, entries, now);
    advanced := st;
    PopulatedUpToCurrent(k, labels, advanced, 0);
    var m := advanced.rounds[0][0];
    assert Fits(2, 1, m);
    loser := if m.winner == Some(m.items[0].id) then m.items[1].id else m.items[0].id;
    LateStampKeepsTreeIff(k, labels, advanced, 1, 0, loser);
    LateReopenKeepsTreeIff(k, labels, advanced, 1, 0);
  }
}

/**
 Whole runs of a generated bracket: every step keeps the tree, advances move exactly one round
 and finish after log2(size) successes, and what repeated advances do is stated exactly.
 */
module BracketRuns {
  import opened Common
  import opened SeedLabels
  import opened Winner
  import opened Bracket
  import opened BracketTree
  import opened BracketAdvance

  // ---- one step ----

  lemma CompleteWinnerIsOwn(items: seq<Item>, chosen: Option<nat>)
    requires CompleteWinner(items, chosen).Ok?
    ensures HasId(items, CompleteWinner(items, chosen).value)
  {
    if chosen.None? {
      TopItemsMembers(items);
      assert TopItems(items)[0] in TopItems(items);
    }
  }

  lemma VotesKeepTree(k: nat, labels: seq<string>, st: State, round: int, i: int, j: int, votes: nat)
    requires Tree(k, labels, st)
    ensures Tree(k, labels, CastVotes(st, round, i, j, votes))
    ensures CastVotes(st, round, i, j, votes).row == st.row
  {
    if OnBoard(st, round, i) && 0 <= j < |st.rounds[round - 1][i].items| {
      var m := st.rounds[round - 1][i];
      assert Fits(st.row.currentRound, round, m);
      ReplaceKeepsTree(k, labels, st, round, i, m.(items := m.items[j := m.items[j].(votes := votes)]));
    }
  }

  lemma StampKeepsTree(k: nat, labels: seq<string>, st: State, round: int, i: int, winner: nat)
    requires Tree(k, labels, st) && OnBoard(st, round, i) && round == st.row.currentRound
    requires HasId(st.rounds[round - 1][i].items, winner)
    ensures Tree(k, labels, WithMatchup(st, round, i, Stamp(st.rounds[round - 1][i], winner)))
  {
    var m := st.rounds[round - 1][i];
    assert Fits(st.row.currentRound, round, m);
    ReplaceKeepsTree(k, labels, st, round, i, Stamp(m, winner));
  }

  lemma CompleteKeepsTree(k: nat, labels: seq<string>, st: State, round: int, i: int)
    requires Tree(k, labels, st)
    ensures Tree(k, labels, Complete(st, round, i))
    ensures Complete(st, round, i).row == st.row
  {
    if OpenToOwner(st, round, i) {
      var m := st.rounds[round - 1][i];
      assert Fits(st.row.currentRound, round, m);
      if m.status == Completed {
        ReplaceKeepsTree(k, labels, st, round, i, m.(status := Active, winner := None));
      } else if CompleteWinner(m.items, m.winner).Ok? {
        CompleteWinnerIsOwn(m.items, m.winner);
        StampKeepsTree(k, labels, st, round, i, CompleteWinner(m.items, m.winner).value);
      }
    }
  }

  lemma ReadyUpKeepsTree(k: nat, labels: seq<string>, st: State, round: int, i: int)
    requires Tree(k, labels, st)
    ensures Tree(k, labels, ReadyUp(st, round, i))
    ensures ReadyUp(st, round, i).row == st.row
  {
    if OnBoard(st, round, i) && st.rounds[round - 1][i].winner.Some? {
      var m := st.rounds[round - 1][i];
      assert Fits(st.row.currentRound, round, m);
      ReplaceKeepsTree(k, labels, st, round, i, m.(status := Completed));
    }
  }

  lemma UpdateKeepsTree(k: nat, labels: seq<string>, st: State, req: UpdateRequest, now: int)
    requires Tree(k, labels, st)
    ensures Tree(k, labels, Update(st, req, now))
    ensures Update(st, req, now).row.currentRound == st.row.currentRound
  {
    var row := UpdatedRow(st.row, req, now);
    SyncKeepsTree(k, labels, st, row);
    SyncFreeRow(k, labels, st, row);
  }

  lemma AdvanceKeepsTree(k: nat, labels: seq<string>, st: State, now: int)
    requires Tree(k, labels, st) && Readable(k, labels) && Advance(st, now).Ok?
    ensures Tree(k, labels, Advance(st, now).value)
    ensures Advance(st, now).value.row.currentRound == if st.row.currentRound < k then st.row.currentRound + 1 else k
    ensures st.row.currentRound == k ==> Advance(st, now).value.row.status == "completed"
  {
    if st.row.currentRound == k {
      FinalAdvance(k, labels, st, now);
    } else {
      EarlierAdvance(k, labels, st, now);
    }
  }

  lemma AdvanceOrStayKeepsTree(k: nat, labels: seq<string>, st: State, st': State, now: int)
    requires Tree(k, labels, st) && Readable(k, labels) && st' == AdvanceOrStay(st, now)
    ensures Tree(k, labels, st') && st'.row.currentRound == RoundAfter(k, st, Advance(st, now).Ok?)
    ensures Advance(st, now).Ok? && st.row.currentRound == k ==> st'.row.status == "completed"
  {
    if Advance(st, now).Ok? {
      AdvanceKeepsTree(k, labels, st, now);
    }
  }

  /** A success moves one round, except that the last round stays. */
  function RoundAfter(k: nat, st: State, success: bool): int {
    if success && st.row.currentRound < k then st.row.currentRound + 1 else st.row.currentRound
  }

  /** A step that carries out an advance. */
  ghost predicate Succeeds(st: State, step: Step) {
    match step
    case AdvanceBracket(now) => Advance(st, now).Ok?
    case ResolveTieAndAdvance(round, i, winner, now) =>
      && OpenToOwner(st, round, i) && HasId(st.rounds[round - 1][i].items, winner)
      && Advance(WithMatchup(st, round, i, Stamp(st.rounds[round - 1][i], winner)), now).Ok?
    case _ => false
  }

  lemma ResolveTieKeepsTree(k: nat, labels: seq<string>, st: State, st': State, round: int, i: int, winner: nat,
      now: int)
    requires Tree(k, labels, st) && Readable(k, labels) && st' == ResolveTie(st, round, i, winner, now)
    ensures var success := Succeeds(st, ResolveTieAndAdvance(round, i, winner, now));
            && Tree(k, labels, st') && st'.row.currentRound == RoundAfter(k, st, success)
            && (success && st.row.currentRound == k ==> st'.row.status == "completed")
  {
    if OpenToOwner(st, round, i) && HasId(st.rounds[round - 1][i].items, winner) {
      var chosen := WithMatchup(st, round, i, Stamp(st.rounds[round - 1][i], winner));
      StampKeepsTree(k, labels, st, round, i, winner);
      AdvanceOrStayKeepsTree(k, labels, chosen, st', now);
    }
  }

  lemma OverrideKeepsTree(k: nat, labels: seq<string>, st: State, round: int, i: int, winner: nat)
    requires Tree(k, labels, st)
    ensures Tree(k, labels, Override(st, round, i, winner))
    ensures Override(st, round, i, winner).row == st.row
  {
    if OpenToOwner(st, round, i) && HasId(st.rounds[round - 1][i].items, winner) {
      StampKeepsTree(k, labels, st, round, i, winner);
    }
  }

  /** Every step keeps the tree; only a successful advance moves the round, by exactly one. */
  lemma StepKeepsTree(k: nat, labels: seq<string>, st: State, step: Step)
    requires Tree(k, labels, st) && Readable(k, labels)
    ensures Tree(k, labels, TakeStep(st, step))
    ensures TakeStep(st, step).row.currentRound == RoundAfter(k, st, Succeeds(st, step))
    ensures Succeeds(st, step) && st.row.currentRound == k ==> TakeStep(st, step).row.status == "completed"
  {
    match step
    case Vote(round, i, j, votes) => VotesKeepTree(k, labels, st, round, i, j, votes);
    case OverrideWinner(round, i, winner) => OverrideKeepsTree(k, labels, st, round, i, winner);
    case CompleteMatchup(round, i) => CompleteKeepsTree(k, labels, st, round, i);
    case ReadyUpMatchup(round, i) => ReadyUpKeepsTree(k, labels, st, round, i);
    case UpdateBracket(req, now) => UpdateKeepsTree(k, labels, st, req, now);
    case AdvanceBracket(now) => AdvanceOrStayKeepsTree(k, labels, st, TakeStep(st, step), now);
    case ResolveTieAndAdvance(round, i, winner, now) =>
      ResolveTieKeepsTree(k, labels, st, TakeStep(st, step), round, i, winner, now);
  }

  // ---- every run ----

  ghost function Successes(st: State, steps: seq<Step>): nat {
    if steps == [] then 0
    else
      var before := steps[..|steps| - 1];
      Successes(st, before) + if Succeeds(Run(st, before), steps[|steps| - 1]) then 1 else 0
  }

  lemma {:induction false} RunKeepsTree(k: nat, labels: seq<string>, start: State, steps: seq<Step>)
    requires Tree(k, labels, start) && Readable(k, labels)
    ensures Tree(k, labels, Run(start, steps))
  {
    if steps != [] {
      RunKeepsTree(k, labels, start, steps[..|steps| - 1]);
      StepKeepsTree(k, labels, Run(start, steps[..|steps| - 1]), steps[|steps| - 1]);
    }
  }

  /** Every success moves one round until the last is reached, and a success there completes the bracket. */
  lemma {:induction false} RoundsFollowSuccesses(k: nat, labels: seq<string>, start: State, steps: seq<Step>)
    requires Tree(k, labels, start) && Readable(k, labels) && start.row.currentRound == 1
    ensures Run(start, steps).row.currentRound
        == (if Successes(start, steps) < k then 1 + Successes(start, steps) else k)
    ensures (steps != [] && Successes(start, steps) >= k
             && Succeeds(Run(start, steps[..|steps| - 1]), steps[|steps| - 1])) ==>
              Run(start, steps).row.status == "completed"
  {
    if steps != [] {
      var before, last := steps[..|steps| - 1], steps[|steps| - 1];
      RoundsFollowSuccesses(k, labels, start, before);
      RunKeepsTree(k, labels, start, before);
      StepKeepsTree(k, labels, Run(start, before), last);
    }
  }

  /** The invariant holds after every run from a generated bracket, and the round counts the successes. */
  lemma EveryRunKeepsTree(k: nat, entries: seq<string>, mode: string, duration: int, steps: seq<Step>)
    requires k >= 1 && SizeFits(k)
    ensures var start := Generated(k, entries, mode, duration);
            && Tree(k, Labels(k, entries), Run(start, steps))
            && Run(start, steps).row.currentRound
                == if Successes(start, steps) < k then 1 + Successes(start, steps) else k
  {
    var start := Generated(k, entries, mode, duration);
    GeneratedIsTree(k, entries, mode, duration);
    PrintedLabelsAreReadable(k, entries);
    RunKeepsTree(k, Labels(k, entries), start, steps);
    RoundsFollowSuccesses(k, Labels(k, entries), start, steps);
  }

  /**
   Wherever the tree holds an advance succeeds exactly when the mode or the clock entitles it
   to decide, or the round is the last, or every current matchup is completed. The only error is
   an uncompleted matchup: ties, populated next rounds and miscounted winners cannot occur.
   */
  lemma AdvanceOutcome(k: nat, labels: seq<string>, st: State, now: int)
    requires Tree(k, labels, st) && Readable(k, labels)
    ensures Advance(st, now).Ok? <==> MayAdvance(st, now)
    ensures Advance(st, now).Err? ==> Advance(st, now) == Err(NotCompleted)
  {
    if st.row.currentRound == k {
      FinalAdvance(k, labels, st, now);
    } else {
      EarlierAdvance(k, labels, st, now);
    }
  }

  lemma FinalKeepsDecided(k: nat, labels: seq<string>, st: State, now: int, r: nat, i: nat)
    requires Tree(k, labels, st) && Readable(k, labels) && st.row.currentRound == k
    requires r < k && i < |st.rounds[r]| && Decided(st.rounds[r][i])
    ensures Advance(st, now).Ok? && r < |Advance(st, now).value.rounds| && i < |Advance(st, now).value.rounds[r]|
    ensures Advance(st, now).value.rounds[r][i] == st.rounds[r][i]
  {
    FinalAdvance(k, labels, st, now);
  }

  lemma EarlierKeepsDecided(k: nat, labels: seq<string>, st: State, st': State, now: int, r: nat, i: nat)
    requires Tree(k, labels, st) && Readable(k, labels) && st.row.currentRound < k && Advance(st, now) == Ok(st')
    requires r < st.row.currentRound && i < |st.rounds[r]| && Decided(st.rounds[r][i])
    ensures r < |st'.rounds| && i < |st'.rounds[r]| && st'.rounds[r][i] == st.rounds[r][i]
  {
    var current := EarlierAdvanceIsAdvanceOne(k, labels, st, now);
    AdvanceOneKeepsDecided(k, labels, st, current, now, r, i);
  }

  /** An advance never overturns a decided matchup. */
  lemma AdvanceKeepsDecided(k: nat, labels: seq<string>, st: State, st': State, now: int, r: nat, i: nat)
    requires Tree(k, labels, st) && Readable(k, labels) && Advance(st, now) == Ok(st')
    requires r < st.row.currentRound && i < |st.rounds[r]| && Decided(st.rounds[r][i])
    ensures r < |st'.rounds| && i < |st'.rounds[r]| && st'.rounds[r][i] == st.rounds[r][i]
  {
    if st.row.currentRound == k {
      FinalKeepsDecided(k, labels, st, now, r, i);
    } else {
      EarlierKeepsDecided(k, labels, st, st', now, r, i);
    }
  }

  /** The champion's label was generated for one of the bracket's seeds. */
  lemma ChampionIsAnEntry(k: nat, labels: seq<string>, st: State, now: int)
    requires Tree(k, labels, st) && Readable(k, labels) && st.row.currentRound == k
    ensures Advance(st, now).Ok? && |Advance(st, now).value.rounds| == k && |Advance(st, now).value.rounds[k - 1]| == 1
    ensures var final := Advance(st, now).value.rounds[k - 1][0];
            Past(final) && FromBlock(k, labels, Sent(final), k, 0)
  {
    FinalAdvance(k, labels, st, now);
    var st' := Advance(st, now).value;
    ItemsFromSubtree(k, labels, st', k - 1, 0);
    SentFromHalves(k, labels, st'.rounds[k - 1][0], k - 1, 0);
  }

  // ---- repeated advances ----

  lemma SameFinal(done: State, again: State, second: int)
    requires |again.rounds| == |done.rounds| >= 1 && done.row.status == "completed"
    requires var last := |done.rounds| - 1;
             && again.rounds == done.rounds[last := again.rounds[last]]
             && Refines(done.rounds[last], again.rounds[last])
             && |done.rounds[last]| == 1 && Past(done.rounds[last][0])
    requires again.row == done.row.(status := "completed", completedAt := Some(second))
    requires again.nextItemId == done.nextItemId
    ensures again == done.(row := done.row.(completedAt := Some(second)))
  {
    var last := |done.rounds| - 1;
    assert done.rounds[last] == again.rounds[last];
  }

  /** Advancing a completed bracket again changes only the completion time. */
  lemma ReAdvanceChangesOnlyTime(k: nat, labels: seq<string>, st: State, done: State, first: int, second: int)
    requires Tree(k, labels, st) && Readable(k, labels) && st.row.currentRound == k && Advance(st, first) == Ok(done)
    ensures Advance(done, second) == Ok(done.(row := done.row.(completedAt := Some(second))))
  {
    FinalAdvance(k, labels, st, first);
    FinalAdvance(k, labels, done, second);
    SameFinal(done, Advance(done, second).value, second);
  }

  /** A timer advance opens the next round with its full duration ahead. */
  lemma TimerAdvanceOpensRound(k: nat, labels: seq<string>, st: State, st': State, now: int)
    requires Tree(k, labels, st) && Readable(k, labels) && st.row.currentRound < k
    requires st.row.mode == "timer" && Advance(st, now) == Ok(st')
    ensures Tree(k, labels, st') && st'.row.currentRound == st.row.currentRound + 1 && !AutoFinalizes(st'.row, now)
    ensures |st'.rounds| == k && !AllCompleted(st'.rounds[st.row.currentRound])
  {
    EarlierAdvance(k, labels, st, now);
    var current := EarlierAdvanceIsAdvanceOne(k, labels, st, now);
    AdvanceOneOpens(st, current, now);
    WindowIsOpen(st.row.(currentRound := st.row.currentRound + 1), now);
    assert st'.rounds[st.row.currentRound][0].status == Active;
  }

  lemma WindowIsOpen(row: Row, now: int)
    requires row.mode == "timer"
    ensures !AutoFinalizes(RoundWindow(row, now), now)
  {
  }

  /** The round that is moved to consists of active matchups. */
  lemma AdvanceOneOpens(st: State, current: seq<Matchup>, now: int)
    requires 1 <= st.row.currentRound < |st.rounds| && AdvanceOne(st, current, now).Ok?
    ensures var st', c := AdvanceOne(st, current, now).value, st.row.currentRound;
            |st'.rounds| == |st.rounds| && forall i :: 0 <= i < |st'.rounds[c]| ==> st'.rounds[c][i].status == Active
  {
  }

  /**
   A second timer advance at the same instant is refused exactly when the first one did not
   open the last round; the last round is completed by any advance, expired or not.
   */
  lemma DuplicateTimerAdvance(k: nat, labels: seq<string>, st: State, st': State, now: int)
    requires Tree(k, labels, st) && Readable(k, labels) && st.row.currentRound < k
    requires st.row.mode == "timer" && Advance(st, now) == Ok(st')
    ensures Advance(st', now).Err? <==> st.row.currentRound + 1 < k
  {
    TimerAdvanceOpensRound(k, labels, st, st', now);
    AdvanceOutcome(k, labels, st', now);
  }

  const Activation := UpdateRequest(Some("active"), None, None)

  /** Activating a new timer bracket opens its first round for a minute. */
  lemma TimerStart(k: nat, entries: seq<string>, now: int) returns (active: State)
    requires k >= 2 && SizeFits(k)
    ensures active == Update(Generated(k, entries, "timer", 60), Activation, now)
    ensures Tree(k, Labels(k, entries), active) && Readable(k, Labels(k, entries)) && active.row.currentRound == 1
    ensures active.row.mode == "timer" && active.row.endsAt == Some(now + 60)
  {
    GeneratedIsTree(k, entries, "timer", 60);
    PrintedLabelsAreReadable(k, entries);
    UpdateKeepsTree(k, Labels(k, entries), Generated(k, entries, "timer", 60), Activation, now);
    TrimmedIsFixed("timer");
    active := Update(Generated(k, entries, "timer", 60), Activation, now);
  }

  /**
   Two timer advances at the same instant, when the first round of a new bracket expires: with
   four entries the second one completes the bracket at once, with more it is refused.
   */
  lemma TimerAdvanceTwice(k: nat, entries: seq<string>, now: int) returns (active: State, second: State)
    requires k >= 2 && SizeFits(k)
    ensures active == Update(Generated(k, entries, "timer", 60), Activation, now)
    ensures Advance(active, now + 60) == Ok(second)
    ensures Advance(second, now + 60).Ok? <==> k == 2
  {
    active := TimerStart(k, entries, now);
    AdvanceOutcome(k, Labels(k, entries), active, now + 60);
    second := Advance(active, now + 60).value;
    DuplicateTimerAdvance(k, Labels(k, entries), active, second, now + 60);
  }
}

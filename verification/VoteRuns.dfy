/**
 Runs of the vote ledger with at most one request in flight per voter and matchup: every item
 stays balanced. Two requests of one voter can unbalance it.
 */
module VoteRuns {
  import opened Common
  import opened VoteLedger

  // ---- runs with one request in flight per voter and matchup ----

  ghost predicate Idle(st: Ledger, b: Ballot) {
    forall id :: id in st.inflight ==> st.inflight[id].ballot != b
  }

  ghost predicate Orderly(st: Ledger, steps: seq<Step>) {
    steps == [] ||
    var before, last := steps[..|steps| - 1], steps[|steps| - 1];
    Orderly(st, before) && (last.Begin? ==> Idle(Run(st, before), last.ballot))
  }

  ghost predicate OneEach(inflight: map<nat, Request>) {
    forall a, b :: a in inflight && b in inflight && a != b ==> inflight[a].ballot != inflight[b].ballot
  }

  /** The request agrees with its row: what it saw, or what it wrote and has not yet counted. */
  ghost predicate Agrees(rows: map<Ballot, Choice>, req: Request) {
    match req.phase
    case Arrived => true
    case Looked(seen, _) => seen == RowOf(rows, req.ballot)
    case Committed(incr, _) => incr.Some? ==> RowOf(rows, req.ballot) == Some(Pick(incr.value))
  }

  ghost predicate Tidy(st: Ledger) {
    OneEach(st.inflight) && forall id :: id in st.inflight ==> Agrees(st.rows, st.inflight[id])
  }

  lemma PhaseKeepsTidy(st: Ledger, id: nat, phase: Phase)
    requires Tidy(st) && id in st.inflight && Agrees(st.rows, st.inflight[id].(phase := phase))
    ensures Tidy(WithPhase(st, id, phase))
  {
  }

  lemma CommitKeepsTidy(st: Ledger, id: nat)
    requires Tidy(st)
    ensures Tidy(CommitStep(st, id))
  {
    if MayCommit(st, id) {
      var req := st.inflight[id];
      assert Agrees(st.rows, req);
      var rows := st.rows[req.ballot := req.want];
      forall other | other in st.inflight && other != id
        ensures Agrees(rows, st.inflight[other])
      {
        assert RowOf(rows, st.inflight[other].ballot) == RowOf(st.rows, st.inflight[other].ballot);
      }
    }
  }

  lemma StepKeepsTidy(st: Ledger, step: Step)
    requires Tidy(st) && (step.Begin? ==> Idle(st, step.ballot))
    ensures Tidy(TakeStep(st, step))
  {
    match step
    case Begin(id, ballot, want) =>
    case Look(id) =>
      if id in st.inflight {
        PhaseKeepsTidy(st, id, Looked(RowOf(st.rows, st.inflight[id].ballot), false));
      }
    case CountVotes(id) =>
      if id in st.inflight && NeedsCount(st.inflight[id]) {
        assert Agrees(st.rows, st.inflight[id]);
        PhaseKeepsTidy(st, id, Looked(None, true));
      }
    case Commit(id) => CommitKeepsTidy(st, id);
    case Apply(id) =>
      if id in st.inflight && st.inflight[id].phase.Committed? {
        var owed := st.inflight[id].phase;
        PhaseKeepsTidy(st, id, Committed(None, if owed.incr.Some? then owed.decr else None));
      }
    case Refuse(id) =>
    case FlushTake(x) =>
    case FlushAdd(x) =>
    case FlushFail(x) =>
  }

  lemma TidyIsNeverStale(st: Ledger, id: nat)
    requires Tidy(st)
    ensures !Stale(st, id)
  {
  }

  lemma StepKeepsDrift(st: Ledger, step: Step, x: nat)
    requires Tidy(st) && x in st.stored && Floored(st, x)
    ensures x in TakeStep(st, step).stored && Drift(TakeStep(st, step), x) == Drift(st, x)
  {
    if step.Commit? {
      if MayCommit(st, step.id) {
        TidyIsNeverStale(st, step.id);
        CommitDrift(st, step.id, x);
      }
    } else {
      OtherStepsKeepDriftIff(st, step, x);
    }
  }

  /** No pick is counted before its row exists, so without a shortfall what has been applied is never negative. */
  lemma AppliedIsNatural(st: Ledger, x: nat)
    requires Tidy(st) && x in st.stored && Drift(st, x) >= 0
    ensures Applied(st, x) >= 0
  {
    var owing := KeysWhere(st.inflight, OwesIncr(x));
    var picking := KeysWhere(st.rows, Picks(x));
    forall id | id in owing
      ensures st.inflight[id].ballot in picking
    {
      assert Agrees(st.rows, st.inflight[id]);
    }
    InjectionBound(st.inflight, owing, picking);
  }

  lemma {:induction false} InjectionBound(inflight: map<nat, Request>, ids: set<nat>, ballots: set<Ballot>)
    requires OneEach(inflight)
    requires forall id :: id in ids ==> id in inflight && inflight[id].ballot in ballots
    ensures |ids| <= |ballots|
  {
    if ids != {} {
      var id :| id in ids;
      InjectionBound(inflight, ids - {id}, ballots - {inflight[id].ballot});
    }
  }

  /** Neither the column nor the column with the worker's amount is negative. */
  ghost predicate Floored(st: Ledger, x: nat) {
    Get(st.stored, x) >= 0 && Get(st.stored, x) + Get(st.held, x) >= 0
  }

  lemma StepKeepsFloor(st: Ledger, step: Step, x: nat)
    requires x in st.stored && Floored(st, x) && Applied(st, x) >= 0
    ensures Floored(TakeStep(st, step), x)
  {
  }

  /**
   From a tidy state without a shortfall, drifted or not, an orderly continuation keeps the drift
   of the item as it was, and the worker's floor is never used.
   */
  lemma {:induction false} RunKeepsDrift(start: Ledger, steps: seq<Step>, x: nat)
    requires Tidy(start) && Orderly(start, steps) && x in start.stored && Drift(start, x) >= 0 && Floored(start, x)
    ensures var st := Run(start, steps);
            && Tidy(st) && x in st.stored && Drift(st, x) == Drift(start, x)
            && Applied(st, x) >= 0 && Floored(st, x)
  {
    if steps == [] {
      AppliedIsNatural(start, x);
    } else {
      var before, last := Run(start, steps[..|steps| - 1]), steps[|steps| - 1];
      RunKeepsDrift(start, steps[..|steps| - 1], x);
      StepKeepsTidy(before, last);
      StepKeepsDrift(before, last, x);
      StepKeepsFloor(before, last, x);
      AppliedIsNatural(TakeStep(before, last), x);
    }
  }

  function Fresh(items: set<nat>): Ledger {
    Ledger(map[], map x | x in items :: 0, map[], map[], map[])
  }

  lemma FreshIsBalanced(items: set<nat>, x: nat)
    requires x in items
    ensures var st := Fresh(items); Tidy(st) && x in st.stored && Drift(st, x) == 0 && Floored(st, x)
  {
    var st := Fresh(items);
    assert KeysWhere(st.rows, Picks(x)) == {};
    assert KeysWhere(st.inflight, OwesIncr(x)) == {} && KeysWhere(st.inflight, OwesDecr(x)) == {};
  }

  /**
   In every interleaving with at most one request in flight per voter and matchup, each item's
   column, buffer, flush amount and owed changes add up to its pick rows, and the worker's update
   never needs its floor at zero. What a read shows in between is the subject of `VoteReads`.
   */
  lemma EveryRunBalances(items: set<nat>, steps: seq<Step>, x: nat)
    requires Orderly(Fresh(items), steps) && x in items
    ensures var st := Run(Fresh(items), steps);
            && Tidy(st) && x in st.stored && Drift(st, x) == 0
            && Applied(st, x) >= 0 && Floored(st, x)
  {
    FreshIsBalanced(items, x);
    RunKeepsDrift(Fresh(items), steps, x);
  }

  function Skipped(b: Ballot, inflight: map<nat, Request>): Ledger {
    Ledger(map[b := Skip], map[1 := 0, 2 := 0], map[], map[], inflight)
  }

  function SkipSteps(b: Ballot): seq<Step> {
    [Begin(0, b, Skip), Look(0), Commit(0), Apply(0)]
  }

  function DoublePick(b: Ballot): seq<Step> {
    [Begin(1, b, Pick(1)), Begin(2, b, Pick(2)), Look(1), Look(2), Commit(1), Commit(2)]
  }

  /**
   Two requests of one voter in flight together, after that voter has skipped: both move the
   same row, and the first item keeps a vote too many.
   */
  lemma DoubleSubmitDrifts(b: Ballot)
    ensures Drift(Run(Fresh({1, 2}), SkipSteps(b) + DoublePick(b)), 1) == 1
  {
    RunConcat(Fresh({1, 2}), SkipSteps(b), DoublePick(b));
    SkipRun(b);
    DoublePickDrifts(b);
  }

  lemma SkipRun(b: Ballot)
    ensures Run(Fresh({1, 2}), SkipSteps(b)) == Skipped(b, map[])
  {
    RunOfFour(Fresh({1, 2}), Begin(0, b, Skip), Look(0), Commit(0), Apply(0));
    SkipIsRecorded(b);
  }

  lemma DoublePickDrifts(b: Ballot)
    ensures Drift(Run(Skipped(b, map[]), DoublePick(b)), 1) == 1
  {
    RunOfSix(Skipped(b, map[]), Begin(1, b, Pick(1)), Begin(2, b, Pick(2)), Look(1), Look(2), Commit(1), Commit(2));
    BothLooked(b);
    BothCommitted(b);
  }

  lemma SkipIsRecorded(b: Ballot)
    ensures ApplyStep(CommitStep(LookStep(BeginStep(Fresh({1, 2}), 0, b, Skip), 0), 0), 0) == Skipped(b, map[])
  {
    var none: map<nat, Request> := map[];
    var st := Fresh({1, 2});
    assert st.stored == map[1 := 0, 2 := 0];
    assert LookStep(BeginStep(st, 0, b, Skip), 0) == st.(inflight := none[0 := Request(b, Skip, Looked(None, false))]);
    assert CommitStep(LookStep(BeginStep(st, 0, b, Skip), 0), 0)
        == Skipped(b, none[0 := Request(b, Skip, Committed(None, None))]);
    assert none[0 := Request(b, Skip, Committed(None, None))] - {0} == none;
  }

  function LookedAt(b: Ballot): Ledger {
    Skipped(b, map[1 := Request(b, Pick(1), Looked(Some(Skip), false)),
                   2 := Request(b, Pick(2), Looked(Some(Skip), false))])
  }

  lemma BothLooked(b: Ballot)
    ensures LookStep(LookStep(BeginStep(BeginStep(Skipped(b, map[]), 1, b, Pick(1)), 2, b, Pick(2)), 1), 2)
        == LookedAt(b)
  {
    var none: map<nat, Request> := map[];
    var first, second := Request(b, Pick(1), Arrived), Request(b, Pick(2), Arrived);
    var seen := Looked(Some(Skip), false);
    assert BeginStep(BeginStep(Skipped(b, none), 1, b, Pick(1)), 2, b, Pick(2))
        == Skipped(b, none[1 := first][2 := second]);
    LookSees(b, none[1 := first][2 := second], 1);
    LookSees(b, none[1 := first][2 := second][1 := first.(phase := seen)], 2);
    assert none[1 := first][2 := second][1 := first.(phase := seen)][2 := second.(phase := seen)]
        == LookedAt(b).inflight;
  }

  lemma LookSees(b: Ballot, inflight: map<nat, Request>, id: nat)
    requires id in inflight && inflight[id].ballot == b && inflight[id].want.Pick? && inflight[id].phase.Arrived?
    ensures LookStep(Skipped(b, inflight), id)
         == Skipped(b, inflight[id := inflight[id].(phase := Looked(Some(Skip), false))])
  {
  }

  lemma BothCommitted(b: Ballot)
    ensures Drift(Skipped(b, map[]), 1) == 0 && Drift(CommitStep(CommitStep(LookedAt(b), 1), 2), 1) == 1
  {
    var none: map<nat, Request> := map[];
    var first := none[1 := LookedAt(b).inflight[1]];
    assert LookedAt(b).inflight == first[2 := LookedAt(b).inflight[2]];
    assert KeysWhere(none, OwesIncr(1)) == {} && KeysWhere(none, OwesDecr(1)) == {};
    assert KeysWhere(map[b := Skip], Picks(1)) == {};
    OwedUpdate(none, 1, LookedAt(b).inflight[1], 1);
    OwedUpdate(first, 2, LookedAt(b).inflight[2], 1);
    CommitDrift(LookedAt(b), 1, 1);
    CommitDrift(CommitStep(LookedAt(b), 1), 2, 1);
  }

  lemma RunSnoc(st: Ledger, steps: seq<Step>, last: Step)
    ensures Run(st, steps + [last]) == TakeStep(Run(st, steps), last)
  {
    assert (steps + [last])[..|steps + [last]| - 1] == steps;
  }

  lemma {:induction false} RunConcat(st: Ledger, a: seq<Step>, b: seq<Step>)
    ensures Run(st, a + b) == Run(Run(st, a), b)
  {
    if b == [] {
      assert a + b == a;
    } else {
      var front, last := b[..|b| - 1], b[|b| - 1];
      assert a + b == a + front + [last];
      RunConcat(st, a, front);
      RunSnoc(st, a + front, last);
    }
  }

  lemma {:induction false} OrderlyConcat(st: Ledger, a: seq<Step>, b: seq<Step>)
    requires Orderly(st, a) && Orderly(Run(st, a), b)
    ensures Orderly(st, a + b)
  {
    if b == [] {
      assert a + b == a;
    } else {
      var front, last := b[..|b| - 1], b[|b| - 1];
      assert (a + b)[..|a + b| - 1] == a + front;
      OrderlyConcat(st, a, front);
      RunConcat(st, a, front);
    }
  }

  lemma {:induction false} NoBeginIsOrderly(st: Ledger, steps: seq<Step>)
    requires forall i :: 0 <= i < |steps| ==> !steps[i].Begin?
    ensures Orderly(st, steps)
  {
    if steps != [] {
      NoBeginIsOrderly(st, steps[..|steps| - 1]);
    }
  }

  lemma RunOfThree(st: Ledger, a: Step, b: Step, c: Step)
    ensures Run(st, [a, b, c]) == TakeStep(TakeStep(TakeStep(st, a), b), c)
  {
    assert [a, b, c] == [a, b] + [c] && [a, b] == [a] + [b] && [a] == [] + [a];
    RunSnoc(st, [], a);
    RunSnoc(st, [a], b);
    RunSnoc(st, [a, b], c);
  }

  lemma RunOfFour(st: Ledger, a: Step, b: Step, c: Step, d: Step)
    ensures Run(st, [a, b, c, d]) == TakeStep(TakeStep(TakeStep(TakeStep(st, a), b), c), d)
  {
    assert [a, b, c, d] == [a, b, c] + [d];
    RunOfThree(st, a, b, c);
    RunSnoc(st, [a, b, c], d);
  }

  lemma RunOfSix(st: Ledger, a: Step, b: Step, c: Step, d: Step, e: Step, f: Step)
    ensures Run(st, [a, b, c, d, e, f])
         == TakeStep(TakeStep(TakeStep(TakeStep(TakeStep(TakeStep(st, a), b), c), d), e), f)
  {
    assert [a, b, c, d, e, f] == [a, b, c, d, e] + [f] && [a, b, c, d, e] == [a, b, c, d] + [e];
    RunOfFour(st, a, b, c, d);
    RunSnoc(st, [a, b, c, d], e);
    RunSnoc(st, [a, b, c, d, e], f);
  }
}

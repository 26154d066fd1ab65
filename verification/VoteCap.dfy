/**
 The limit of free votes for a device. The count and the insert are separate statements, and a
 skip that becomes a pick is not counted, so the limit can be exceeded in two ways. The true
 bound over every run, and a run for each of the two.
 */
module VoteCap {
  import opened Common
  import opened VoteLedger
  import opened VoteRuns
  import opened VoteAlone

  /** The picks of the device. */
  ghost function Used(st: Ledger, d: string): nat {
    |UsedBallots(st.rows, Device(d))|
  }

  /** Requests of the device between their count and their insert. */
  ghost function Cleared(d: string): Request -> bool {
    (r: Request) => r.ballot.voter == Device(d) && NeedsCount(r) && r.phase.counted
  }

  ghost function ClearedCount(st: Ledger, d: string): nat {
    Count(st.inflight, Cleared(d))
  }

  /** The step turns a skip of the device into a pick although its free votes are used up or promised. */
  ghost predicate Replaces(st: Ledger, step: Step, d: string) {
    && step.Commit? && MayCommit(st, step.id)
    && var req := st.inflight[step.id];
       && req.ballot.voter == Device(d) && req.want.Pick? && req.phase.seen.Some?
       && RowOf(st.rows, req.ballot) == Some(Skip)
       && Used(st, d) + ClearedCount(st, d) >= ANON_VOTE_CAP
  }

  ghost function Replacements(start: Ledger, steps: seq<Step>, d: string): nat {
    if steps == [] then 0
    else
      var before := steps[..|steps| - 1];
      Replacements(start, before, d) + if Replaces(Run(start, before), steps[|steps| - 1], d) then 1 else 0
  }

  /** At no point of the run are more than `peak` requests of the device between count and insert. */
  ghost predicate PeakAtMost(start: Ledger, steps: seq<Step>, d: string, peak: nat) {
    && ClearedCount(Run(start, steps), d) <= peak
    && (steps != [] ==> PeakAtMost(start, steps[..|steps| - 1], d, peak))
  }

  // ---- how a step moves the two counts ----

  lemma UsedUpdate(rows: map<Ballot, Choice>, b: Ballot, c: Choice, v: Voter)
    ensures |UsedBallots(rows[b := c], v)|
         == |UsedBallots(rows, v)| - Weigh(b in UsedBallots(rows, v)) + Weigh(b.voter == v && c.Pick?)
  {
    var before, after := UsedBallots(rows, v), UsedBallots(rows[b := c], v);
    if b.voter == v && c.Pick? {
      assert after == before + {b};
    } else {
      assert after == before - {b};
    }
  }

  lemma ClearedUpdate(st: Ledger, id: nat, r: Request, d: string)
    ensures Count(st.inflight[id := r], Cleared(d))
         == ClearedCount(st, d) - Weigh(id in st.inflight && Cleared(d)(st.inflight[id])) + Weigh(Cleared(d)(r))
  {
    CountUpdate(st.inflight, id, r, Cleared(d));
  }

  lemma DoneClears(st: Ledger, id: nat, d: string)
    ensures ClearedCount(Done(st, id), d)
        == ClearedCount(st, d) - Weigh(id in st.inflight && Cleared(d)(st.inflight[id]))
  {
    CountRemove(st.inflight, id, Cleared(d));
  }

  /** Only a count that finds a free vote, or a commit, can raise the sum of the two counts. */
  lemma OtherStepsKeepSum(st: Ledger, step: Step, d: string)
    requires !step.Commit? && !step.CountVotes?
    ensures Used(TakeStep(st, step), d) + ClearedCount(TakeStep(st, step), d) <= Used(st, d) + ClearedCount(st, d)
  {
    match step
    case Begin(id, ballot, want) => ClearedUpdate(st, id, Request(ballot, want, Arrived), d);
    case Look(id) =>
      if id in st.inflight && st.inflight[id].phase.Arrived? {
        DoneClears(st, id, d);
        ClearedUpdate(st, id, st.inflight[id].(phase := Looked(RowOf(st.rows, st.inflight[id].ballot), false)), d);
      }
    case Apply(id) => ApplyKeepsSum(st, id, d);
    case Refuse(id) => DoneClears(st, id, d);
    case FlushTake(x) =>
    case FlushAdd(x) =>
    case FlushFail(x) =>
  }

  lemma ApplyKeepsSum(st: Ledger, id: nat, d: string)
    ensures ApplyStep(st, id).rows == st.rows && ClearedCount(ApplyStep(st, id), d) == ClearedCount(st, d)
  {
    if id in st.inflight && st.inflight[id].phase.Committed? {
      var req := st.inflight[id];
      DoneClears(st, id, d);
      ClearedUpdate(st, id, req.(phase := Committed(None, req.phase.decr)), d);
      ClearedUpdate(st, id, req.(phase := Committed(None, None)), d);
    }
  }

  lemma CountStepSum(st: Ledger, id: nat, d: string)
    ensures CountStep(st, id).rows == st.rows
    ensures ClearedCount(CountStep(st, id), d) <= ClearedCount(st, d)
            || (Used(st, d) < ANON_VOTE_CAP && ClearedCount(CountStep(st, id), d) == ClearedCount(st, d) + 1)
  {
    if id in st.inflight && NeedsCount(st.inflight[id]) && !st.inflight[id].phase.counted {
      DoneClears(st, id, d);
      ClearedUpdate(st, id, st.inflight[id].(phase := Looked(None, true)), d);
    }
  }

  /** A commit passes a cleared request on into a pick, or replaces a skip, or adds nothing. */
  lemma CommitSum(st: Ledger, id: nat, d: string)
    requires MayCommit(st, id)
    ensures var req, st' := st.inflight[id], CommitStep(st, id);
            var replaced := req.ballot.voter == Device(d) && req.want.Pick? && req.phase.seen.Some?
                            && RowOf(st.rows, req.ballot) == Some(Skip);
            Used(st', d) + ClearedCount(st', d) <= Used(st, d) + ClearedCount(st, d) + if replaced then 1 else 0
  {
    var req := st.inflight[id];
    if req.phase.seen.None? && req.ballot in st.rows {
      DoneClears(st, id, d);
    } else {
      UsedUpdate(st.rows, req.ballot, req.want, Device(d));
      ClearedUpdate(st, id, req.(phase := Committed(PickOf(Some(req.want)), PickOf(req.phase.seen))), d);
    }
  }

  lemma StepKeepsCap(st: Ledger, step: Step, d: string, peak: nat, extra: nat)
    requires peak >= 1 && ClearedCount(TakeStep(st, step), d) <= peak && ClearedCount(st, d) <= peak
    requires Used(st, d) + ClearedCount(st, d) <= ANON_VOTE_CAP - 1 + peak + extra
    ensures var st' := TakeStep(st, step);
            Used(st', d) + ClearedCount(st', d)
            <= ANON_VOTE_CAP - 1 + peak + extra + if Replaces(st, step, d) then 1 else 0
  {
    match step
    case CountVotes(id) => CountStepSum(st, id, d);
    case Commit(id) =>
      if MayCommit(st, id) {
        CommitSum(st, id, d);
      }
    case _ => OtherStepsKeepSum(st, step, d);
  }

  /**
   In every run the picks of a device stay within the limit, plus one less than the most
   requests it ever had between count and insert, plus its replacements of skips at the limit.
   */
  lemma {:induction false} EveryRunBoundsUse(items: set<nat>, steps: seq<Step>, d: string, peak: nat)
    requires peak >= 1 && PeakAtMost(Fresh(items), steps, d, peak)
    ensures var st := Run(Fresh(items), steps);
            Used(st, d) + ClearedCount(st, d) <= ANON_VOTE_CAP - 1 + peak + Replacements(Fresh(items), steps, d)
  {
    var start := Fresh(items);
    if steps == [] {
      assert UsedBallots(start.rows, Device(d)) == {} && KeysWhere(start.inflight, Cleared(d)) == {};
    } else {
      var before := steps[..|steps| - 1];
      EveryRunBoundsUse(items, before, d, peak);
      StepKeepsCap(Run(start, before), steps[|steps| - 1], d, peak, Replacements(start, before, d));
    }
  }

  /** Without overlapping counts and without replaced skips the limit holds. */
  lemma LimitHolds(items: set<nat>, steps: seq<Step>, d: string)
    requires PeakAtMost(Fresh(items), steps, d, 1) && Replacements(Fresh(items), steps, d) == 0
    ensures Used(Run(Fresh(items), steps), d) <= ANON_VOTE_CAP
  {
    EveryRunBoundsUse(items, steps, d, 1);
  }

  // ---- exactly which commits exceed the limit ----

  /** A commit of the device that adds a pick although the free votes are used up: a new row, or a replaced skip. */
  ghost predicate Oversteps(st: Ledger, step: Step, d: string) {
    && step.Commit? && MayCommit(st, step.id)
    && var req := st.inflight[step.id];
       && req.ballot.voter == Device(d) && req.want.Pick? && Used(st, d) == ANON_VOTE_CAP
       && (if req.phase.seen.None? then req.ballot !in st.rows else RowOf(st.rows, req.ballot) == Some(Skip))
  }

  /** From within the limit, exactly such a commit leaves it. */
  lemma StepKeepsLimitIff(st: Ledger, step: Step, d: string)
    requires Used(st, d) <= ANON_VOTE_CAP
    ensures Used(TakeStep(st, step), d) <= ANON_VOTE_CAP <==> !Oversteps(st, step, d)
  {
    if step.Commit? && MayCommit(st, step.id) {
      UsedUpdate(st.rows, st.inflight[step.id].ballot, st.inflight[step.id].want, Device(d));
    } else {
      OnlyCommitsWriteRows(st, step);
    }
  }

  lemma OnlyCommitsWriteRows(st: Ledger, step: Step)
    requires !(step.Commit? && MayCommit(st, step.id))
    ensures TakeStep(st, step).rows == st.rows
  {
  }

  ghost predicate AlwaysWithin(start: Ledger, steps: seq<Step>, d: string) {
    && Used(Run(start, steps), d) <= ANON_VOTE_CAP
    && (steps != [] ==> AlwaysWithin(start, steps[..|steps| - 1], d))
  }

  ghost predicate NeverOversteps(start: Ledger, steps: seq<Step>, d: string) {
    steps != [] ==>
      var before := steps[..|steps| - 1];
      NeverOversteps(start, before, d) && !Oversteps(Run(start, before), steps[|steps| - 1], d)
  }

  /** A run stays within the limit throughout exactly when none of its commits oversteps. */
  lemma {:induction false} RunKeepsLimitIff(items: set<nat>, steps: seq<Step>, d: string)
    ensures AlwaysWithin(Fresh(items), steps, d) <==> NeverOversteps(Fresh(items), steps, d)
  {
    var start := Fresh(items);
    if steps == [] {
      assert UsedBallots(start.rows, Device(d)) == {};
    } else {
      var before := steps[..|steps| - 1];
      RunKeepsLimitIff(items, before, d);
      if AlwaysWithin(start, before, d) {
        StepKeepsLimitIff(Run(start, before), steps[|steps| - 1], d);
      }
    }
  }

  // ---- both sources of excess are real ----

  /** One request per voter and matchup, no replaced skip at the limit, and at most `peak` overlapping counts. */
  ghost predicate Clean(start: Ledger, steps: seq<Step>, d: string, peak: nat) {
    Orderly(start, steps) && Replacements(start, steps, d) == 0 && PeakAtMost(start, steps, d, peak)
  }

  lemma CleanSnoc(start: Ledger, steps: seq<Step>, step: Step, d: string, peak: nat)
    requires Clean(start, steps, d, peak) && !Replaces(Run(start, steps), step, d)
    requires step.Begin? ==> Idle(Run(start, steps), step.ballot)
    requires ClearedCount(TakeStep(Run(start, steps), step), d) <= peak
    ensures Clean(start, steps + [step], d, peak) && Run(start, steps + [step]) == TakeStep(Run(start, steps), step)
  {
    assert (steps + [step])[..|steps|] == steps;
  }

  /**
   The device has picked on the matchups below `n`, and its requests for the next `k` matchups
   have passed their count. Requests, items and matchups share their numbers.
   */
  ghost predicate Racing(st: Ledger, d: string, n: nat, k: nat, limit: nat) {
    && Used(st, d) == n
    && (forall b :: b in st.rows ==> b.voter == Device(d) && b.matchup < n)
    && (forall id :: id in st.inflight ==> id < n + k && st.inflight[id].ballot == Ballot(Device(d), id))
    && (forall id: nat :: n <= id < n + k ==> id in st.inflight && st.inflight[id] == Passed(d, id))
    && (forall x: nat :: x < limit ==> x in st.stored)
  }

  function Passed(d: string, id: nat): Request {
    Request(Ballot(Device(d), id), Pick(id), Looked(None, true))
  }

  function Asking(st: Ledger, d: string, m: nat, phase: Phase): Ledger {
    st.(inflight := st.inflight[m := Request(Ballot(Device(d), m), Pick(m), phase)])
  }

  /** The three steps of a request up to its count, on a matchup without a row. */
  lemma BeginAsks(st: Ledger, d: string, m: nat)
    requires m !in st.inflight && m in st.stored
    ensures BeginStep(st, m, Ballot(Device(d), m), Pick(m)) == Asking(st, d, m, Arrived)
  {
  }

  lemma LookAsks(st: Ledger, d: string, m: nat)
    requires Ballot(Device(d), m) !in st.rows
    ensures LookStep(Asking(st, d, m, Arrived), m) == Asking(st, d, m, Looked(None, false))
  {
  }

  lemma CountAsks(st: Ledger, d: string, m: nat)
    requires Used(st, d) < ANON_VOTE_CAP
    ensures CountStep(Asking(st, d, m, Looked(None, false)), m) == Asking(st, d, m, Looked(None, true))
  {
  }

  lemma AskingCounts(st: Ledger, d: string, m: nat, phase: Phase)
    requires m !in st.inflight
    ensures ClearedCount(Asking(st, d, m, phase), d) == ClearedCount(st, d) + if phase
        == Looked(None, true) then 1 else 0
  {
    ClearedUpdate(st, m, Request(Ballot(Device(d), m), Pick(m), phase), d);
  }

  lemma PassedRacing(st: Ledger, d: string, n: nat, k: nat, limit: nat)
    requires Racing(st, d, n, k, limit)
    ensures Racing(Asking(st, d, n + k, Looked(None, true)), d, n, k + 1, limit)
    ensures Idle(st, Ballot(Device(d), n + k)) && n + k !in st.inflight && Ballot(Device(d), n + k) !in st.rows
  {
  }

  lemma LandRacing(st: Ledger, d: string, n: nat, k: nat, limit: nat)
    requires Racing(st, d, n, k, limit) && k >= 1
    ensures Racing(CommitStep(st, n), d, n + 1, k - 1, limit)
  {
    UsedUpdate(st.rows, Ballot(Device(d), n), Pick(n), Device(d));
  }

  lemma LandCounts(st: Ledger, d: string, m: nat)
    requires m in st.inflight && st.inflight[m] == Passed(d, m)
    ensures ClearedCount(CommitStep(st, m), d) == ClearedCount(st, d) - 1
  {
    DoneClears(st, m, d);
    ClearedUpdate(st, m, Request(Ballot(Device(d), m), Pick(m), Committed(Some(m), None)), d);
  }

  /** A clean run can be extended by a request for a new matchup up to its count. */
  lemma CleanEnter(start: Ledger, steps: seq<Step>, st: Ledger, d: string, m: nat, peak: nat) returns (more: seq<Step>)
    requires Clean(start, steps, d, peak) && st == Run(start, steps) && Idle(st, Ballot(Device(d), m))
    requires m !in st.inflight && m in st.stored && Ballot(Device(d), m) !in st.rows
    requires Used(st, d) < ANON_VOTE_CAP && ClearedCount(st, d) + 1 <= peak
    ensures Clean(start, more, d, peak) && Run(start, more) == Asking(st, d, m, Looked(None, true))
  {
    BeginAsks(st, d, m);
    LookAsks(st, d, m);
    CountAsks(st, d, m);
    AskingCounts(st, d, m, Arrived);
    AskingCounts(st, d, m, Looked(None, false));
    AskingCounts(st, d, m, Looked(None, true));
    more := CleanStep(start, steps, Begin(m, Ballot(Device(d), m), Pick(m)), d, peak);
    more := CleanStep(start, more, Look(m), d, peak);
    more := CleanStep(start, more, CountVotes(m), d, peak);
  }

  lemma CleanStep(start: Ledger, steps: seq<Step>, step: Step, d: string, peak: nat) returns (more: seq<Step>)
    requires Clean(start, steps, d, peak) && !Replaces(Run(start, steps), step, d)
    requires step.Begin? ==> Idle(Run(start, steps), step.ballot)
    requires ClearedCount(TakeStep(Run(start, steps), step), d) <= peak
    ensures Clean(start, more, d, peak) && Run(start, more) == TakeStep(Run(start, steps), step)
  {
    CleanSnoc(start, steps, step, d, peak);
    more := steps + [step];
  }

  /** A clean run in which `k` of the device's requests are between count and insert. */
  ghost predicate Overlapping(start: Ledger, steps: seq<Step>, d: string, n: nat, k: nat, limit: nat, peak: nat) {
    && Clean(start, steps, d, peak)
    && Racing(Run(start, steps), d, n, k, limit) && ClearedCount(Run(start, steps), d) == k
  }

  lemma Enter(start: Ledger, steps: seq<Step>, d: string, n: nat, k: nat, limit: nat, peak: nat)
    returns (more: seq<Step>)
    requires Overlapping(start, steps, d, n, k, limit, peak)
    requires n < ANON_VOTE_CAP && n + k < limit && k < peak
    ensures Overlapping(start, more, d, n, k + 1, limit, peak)
  {
    var st := Run(start, steps);
    PassedRacing(st, d, n, k, limit);
    more := CleanEnter(start, steps, st, d, n + k, peak);
    AskingCounts(st, d, n + k, Looked(None, true));
  }

  lemma LandOne(start: Ledger, steps: seq<Step>, d: string, n: nat, k: nat, limit: nat, peak: nat)
    returns (more: seq<Step>)
    requires Overlapping(start, steps, d, n, k, limit, peak) && 1 <= k <= peak
    ensures Overlapping(start, more, d, n + 1, k - 1, limit, peak)
  {
    LandRacing(Run(start, steps), d, n, k, limit);
    LandCounts(Run(start, steps), d, n);
    more := CleanStep(start, steps, Commit(n), d, peak);
  }

  /** `k` requests pass their count one after the other, and then all insert. */
  lemma Overlap(start: Ledger, steps: seq<Step>, d: string, n: nat, k: nat, limit: nat, peak: nat)
    returns (more: seq<Step>)
    requires Overlapping(start, steps, d, n, 0, limit, peak)
    requires n < ANON_VOTE_CAP && n + k <= limit && k <= peak
    ensures Overlapping(start, more, d, n + k, 0, limit, peak)
  {
    more := steps;
    for i := 0 to k
      invariant Overlapping(start, more, d, n, i, limit, peak)
    {
      more := Enter(start, more, d, n, i, limit, peak);
    }
    for i := 0 to k
      invariant Overlapping(start, more, d, n + i, k - i, limit, peak)
    {
      more := LandOne(start, more, d, n + i, k - i, limit, peak);
    }
  }

  function Below(limit: nat): (items: set<nat>)
    ensures forall x: nat :: x < limit ==> x in items
  {
    if limit == 0 then {} else Below(limit - 1) + {limit - 1}
  }

  /** With at most `requests` overlapping counts and no replaced skip, the bound over every run is reached. */
  lemma RaceExceedsLimit(d: string, requests: nat) returns (items: set<nat>, steps: seq<Step>)
    requires requests >= 1
    ensures Orderly(Fresh(items), steps) && Replacements(Fresh(items), steps, d) == 0
    ensures PeakAtMost(Fresh(items), steps, d, requests)
    ensures Used(Run(Fresh(items), steps), d) == ANON_VOTE_CAP - 1 + requests
  {
    var limit := ANON_VOTE_CAP - 1 + requests;
    items := Below(limit);
    var start := Fresh(items);
    assert UsedBallots(start.rows, Device(d)) == {} && KeysWhere(start.inflight, Cleared(d)) == {};
    steps := [];
    for i := 0 to ANON_VOTE_CAP - 1
      invariant Overlapping(start, steps, d, i, 0, limit, requests)
    {
      steps := Overlap(start, steps, d, i, 1, limit, requests);
    }
    steps := Overlap(start, steps, d, ANON_VOTE_CAP - 1, requests, limit, requests);
  }

  // ---- skips that become picks ----

  /** The device has picked on the matchups below `n`, and no request is in flight. */
  ghost predicate Picked(st: Ledger, d: string, n: nat, limit: nat) {
    && Used(st, d) == n && st.inflight == map[]
    && (forall b :: b in st.rows ==> b.voter == Device(d) && b.matchup < n)
    && (forall x: nat :: x < limit ==> x in st.stored)
  }

  /** One request after the other: a skip on matchup `n`, then a pick. */
  function SkipThenPick(d: string, n: nat): seq<Step> {
    AloneSteps(0, Ballot(Device(d), n), Skip) + AloneSteps(0, Ballot(Device(d), n), Pick(n))
  }

  lemma {:induction false} PeakConcat(st: Ledger, a: seq<Step>, b: seq<Step>, d: string, peak: nat)
    requires PeakAtMost(st, a, d, peak) && PeakAtMost(Run(st, a), b, d, peak)
    ensures PeakAtMost(st, a + b, d, peak)
  {
    if b == [] {
      assert a + b == a;
    } else {
      var front := b[..|b| - 1];
      assert (a + b)[..|a + b| - 1] == a + front;
      PeakConcat(st, a, front, d, peak);
      RunConcat(st, a, b);
    }
  }

  lemma {:induction false} ReplacementsConcat(st: Ledger, a: seq<Step>, b: seq<Step>, d: string)
    ensures Replacements(st, a + b, d) == Replacements(st, a, d) + Replacements(Run(st, a), b, d)
  {
    if b == [] {
      assert a + b == a;
    } else {
      var front := b[..|b| - 1];
      assert (a + b)[..|a + b| - 1] == a + front;
      ReplacementsConcat(st, a, front, d);
      RunConcat(st, a, front);
    }
  }

  /** Only a count step can raise the number of cleared requests. */
  lemma ClearedOnlyByCount(st: Ledger, step: Step, d: string)
    requires step.CountVotes? ==> step.id !in st.inflight || !NeedsCount(st.inflight[step.id])
    ensures ClearedCount(TakeStep(st, step), d) <= ClearedCount(st, d)
  {
    match step
    case Begin(id, ballot, want) => ClearedUpdate(st, id, Request(ballot, want, Arrived), d);
    case Look(id) =>
      if id in st.inflight && st.inflight[id].phase.Arrived? {
        DoneClears(st, id, d);
        ClearedUpdate(st, id, st.inflight[id].(phase := Looked(RowOf(st.rows, st.inflight[id].ballot), false)), d);
      }
    case Commit(id) => CommitClears(st, id, d);
    case Apply(id) => ApplyKeepsSum(st, id, d);
    case Refuse(id) => DoneClears(st, id, d);
    case _ =>
  }

  lemma CommitClears(st: Ledger, id: nat, d: string)
    ensures ClearedCount(CommitStep(st, id), d) <= ClearedCount(st, d)
  {
    if MayCommit(st, id) {
      var req := st.inflight[id];
      DoneClears(st, id, d);
      ClearedUpdate(st, id, req.(phase := Committed(PickOf(Some(req.want)), PickOf(req.phase.seen))), d);
    }
  }

  lemma {:induction false} NoCountNoPeak(st: Ledger, steps: seq<Step>, d: string)
    requires ClearedCount(st, d) == 0 && forall i :: 0 <= i < |steps| ==> !steps[i].CountVotes?
    ensures PeakAtMost(st, steps, d, 0)
  {
    if steps != [] {
      NoCountNoPeak(st, steps[..|steps| - 1], d);
      ClearedOnlyByCount(Run(st, steps[..|steps| - 1]), steps[|steps| - 1], d);
    }
  }

  lemma {:induction false} NoCommitNoReplacement(st: Ledger, steps: seq<Step>, d: string)
    requires forall i :: 0 <= i < |steps| ==> !steps[i].Commit?
    ensures Replacements(st, steps, d) == 0
  {
    if steps != [] {
      NoCommitNoReplacement(st, steps[..|steps| - 1], d);
    }
  }

  // ---- one request alone, on a row that is a skip or wants one ----

  /** The steps of a request that needs no count: nothing is cleared, and at most its commit replaces a skip. */
  lemma AloneUncounted(st: Ledger, b: Ballot, want: Choice, d: string)
    requires st.inflight == map[] && (want.Pick? ==> want.item in st.stored) && RowOf(st.rows, b) != Some(want)
    requires want.Pick? ==> RowOf(st.rows, b).Some?
    ensures PeakAtMost(st, AloneSteps(0, b, want), d, 0)
    ensures Replacements(st, AloneSteps(0, b, want), d) ==
            if b.voter == Device(d) && want.Pick? && RowOf(st.rows, b) == Some(Skip) && Used(st, d) >= ANON_VOTE_CAP
            then 1 else 0
  {
    var looks, counts := [Begin(0, b, want), Look(0)], [CountVotes(0)];
    var looked := With(st, 0, b, want, Looked(RowOf(st.rows, b), false));
    assert KeysWhere(st.inflight, Cleared(d)) == {};
    LooksRun(st, b, want);
    LookedIsUncleared(st, b, want, d);
    NoCountNoPeak(st, looks, d);
    UncountedRun(looked, counts, d);
    PeakConcat(st, looks, counts, d, 0);
    RunConcat(st, looks, counts);
    NoCommitNoReplacement(st, looks + counts, d);
    WritesRun(looked, d);
    assert AloneSteps(0, b, want) == looks + counts + Writes();
    PeakConcat(st, looks + counts, Writes(), d, 0);
    ReplacementsConcat(st, looks + counts, Writes(), d);
  }

  function Writes(): seq<Step> {
    [Commit(0)] + [Apply(0), Apply(0), Apply(0)]
  }

  lemma LooksRun(st: Ledger, b: Ballot, want: Choice)
    requires st.inflight == map[] && (want.Pick? ==> want.item in st.stored) && RowOf(st.rows, b) != Some(want)
    ensures Run(st, [Begin(0, b, want), Look(0)]) == With(st, 0, b, want, Looked(RowOf(st.rows, b), false))
  {
    LookedAlone(st, 0, b, want);
    RunSnoc(st, [], Begin(0, b, want));
    RunSnoc(st, [Begin(0, b, want)], Look(0));
    assert [] + [Begin(0, b, want)] == [Begin(0, b, want)];
    assert [Begin(0, b, want)] + [Look(0)] == [Begin(0, b, want), Look(0)];
  }

  lemma LookedIsUncleared(st: Ledger, b: Ballot, want: Choice, d: string)
    requires st.inflight == map[]
    ensures ClearedCount(With(st, 0, b, want, Looked(RowOf(st.rows, b), false)), d) == 0
  {
    assert KeysWhere(st.inflight, Cleared(d)) == {};
    ClearedUpdate(st, 0, Request(b, want, Looked(RowOf(st.rows, b), false)), d);
  }

  lemma UncountedRun(looked: Ledger, counts: seq<Step>, d: string)
    requires counts == [CountVotes(0)] && 0 in looked.inflight && !NeedsCount(looked.inflight[0])
    requires ClearedCount(looked, d) == 0
    ensures PeakAtMost(looked, counts, d, 0) && Run(looked, counts) == looked
  {
    assert counts[..0] == [] && Run(looked, []) == looked;
  }

  lemma WritesRun(looked: Ledger, d: string)
    requires MayCommit(looked, 0) && !NeedsCount(looked.inflight[0]) && ClearedCount(looked, d) == 0
    ensures PeakAtMost(looked, Writes(), d, 0)
    ensures Replacements(looked, Writes(), d) == if Replaces(looked, Commit(0), d) then 1 else 0
  {
    var commit: seq<Step> := [Commit(0)];
    var applies: seq<Step> := [Apply(0), Apply(0), Apply(0)];
    NoCountNoPeak(looked, Writes(), d);
    ReplacementsConcat(looked, commit, applies, d);
    NoCommitNoReplacement(Run(looked, commit), applies, d);
    assert commit[..0] == [] && Run(looked, []) == looked && Replacements(looked, [], d) == 0;
  }

  lemma SkipThenPickRuns(st: Ledger, d: string, n: nat, limit: nat)
    requires Picked(st, d, n, limit) && n < limit
    ensures Run(st, SkipThenPick(d, n))
        == Settled(Settled(st, Ballot(Device(d), n), Skip), Ballot(Device(d), n), Pick(n))
  {
    var b := Ballot(Device(d), n);
    RunConcat(st, AloneSteps(0, b, Skip), AloneSteps(0, b, Pick(n)));
    AloneIsRun(st, 0, b, Skip);
    AloneSettles(st, 0, b, Skip);
    AloneIsRun(Settled(st, b, Skip), 0, b, Pick(n));
    AloneSettles(Settled(st, b, Skip), 0, b, Pick(n));
  }

  lemma SkipThenPickPicks(st: Ledger, d: string, n: nat, limit: nat)
    requires Picked(st, d, n, limit) && n < limit
    ensures Picked(Settled(Settled(st, Ballot(Device(d), n), Skip), Ballot(Device(d), n), Pick(n)), d, n + 1, limit)
    ensures Used(Settled(st, Ballot(Device(d), n), Skip), d) == n
  {
    var b := Ballot(Device(d), n);
    UsedUpdate(st.rows, b, Skip, Device(d));
    UsedUpdate(st.rows[b := Skip], b, Pick(n), Device(d));
  }

  /** The counts of one such pair of requests, and that it waits for no other. */
  lemma SkipThenPickCounts(st: Ledger, d: string, n: nat, limit: nat)
    requires Picked(st, d, n, limit) && n < limit
    ensures Orderly(st, SkipThenPick(d, n)) && PeakAtMost(st, SkipThenPick(d, n), d, 0)
    ensures Replacements(st, SkipThenPick(d, n), d) == if n >= ANON_VOTE_CAP then 1 else 0
  {
    var b := Ballot(Device(d), n);
    var skipped := Settled(st, b, Skip);
    AloneIsRun(st, 0, b, Skip);
    AloneSettles(st, 0, b, Skip);
    AloneUncounted(st, b, Skip, d);
    SkipThenPickPicks(st, d, n, limit);
    AloneUncounted(skipped, b, Pick(n), d);
    PeakConcat(st, AloneSteps(0, b, Skip), AloneSteps(0, b, Pick(n)), d, 0);
    ReplacementsConcat(st, AloneSteps(0, b, Skip), AloneSteps(0, b, Pick(n)), d);
    AloneIsOrderly(st, 0, b, Skip);
    AloneIsOrderly(skipped, 0, b, Pick(n));
    OrderlyConcat(st, AloneSteps(0, b, Skip), AloneSteps(0, b, Pick(n)));
  }

  /** The run has brought the device `n` picks with one request at a time, and the given number of replaced skips. */
  ghost predicate Evading(start: Ledger, steps: seq<Step>, d: string, n: nat, limit: nat, replaced: nat) {
    && Picked(Run(start, steps), d, n, limit)
    && Orderly(start, steps) && PeakAtMost(start, steps, d, 0) && Replacements(start, steps, d) == replaced
  }

  lemma EvadesMore(start: Ledger, steps: seq<Step>, st: Ledger, d: string, n: nat, limit: nat, replaced: nat)
    returns (longer: seq<Step>)
    requires Evading(start, steps, d, n, limit, replaced) && st == Run(start, steps) && n < limit
    ensures Evading(start, longer, d, n + 1, limit, replaced + if n >= ANON_VOTE_CAP then 1 else 0)
  {
    var more := SkipThenPick(d, n);
    RunConcat(start, steps, more);
    SkipThenPickRuns(st, d, n, limit);
    SkipThenPickPicks(st, d, n, limit);
    SkipThenPickCounts(st, d, n, limit);
    OrderlyConcat(start, steps, more);
    PeakConcat(start, steps, more, d, 0);
    ReplacementsConcat(start, steps, more, d);
    longer := steps + more;
  }

  function Excess(n: nat): nat {
    if n > ANON_VOTE_CAP then n - ANON_VOTE_CAP else 0
  }

  /**
   A device that skips before it picks is never counted: it reaches any number of picks with one
   request at a time, and each pick beyond the limit is a replaced skip. The bound over every run
   is reached.
   */
  lemma SkipsEvadeLimit(d: string, n: nat) returns (items: set<nat>, steps: seq<Step>)
    ensures Orderly(Fresh(items), steps) && PeakAtMost(Fresh(items), steps, d, 0)
    ensures Used(Run(Fresh(items), steps), d) == n && Replacements(Fresh(items), steps, d) == Excess(n)
  {
    items, steps := Below(n), [];
    var start := Fresh(items);
    assert UsedBallots(start.rows, Device(d)) == {} && KeysWhere(start.inflight, Cleared(d)) == {};
    for i := 0 to n
      invariant Evading(start, steps, d, i, n, Excess(i))
    {
      steps := EvadesMore(start, steps, Run(start, steps), d, i, n, Excess(i));
    }
  }
}

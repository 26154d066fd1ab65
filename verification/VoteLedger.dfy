/**
 The vote ledger. Rows in `rows` are the truth; `stored` (the votes column) plus `buffer` (the
 pending counters) is the fast form. A handler looks up its row, commits it, and then applies
 its counter changes one by one; the flush worker takes a counter and later adds it to the
 column, or puts it back when the database refuses. All of these interleave as separate steps.
 Every counter operation succeeds.
 */
module VoteLedger {
  import opened Common

  datatype Voter = User(userId: nat) | Device(deviceId: string)

  /** The unique indexes allow one row for each voter and matchup. */
  datatype Ballot = Ballot(voter: Voter, matchup: nat)

  datatype Choice = Pick(item: nat) | Skip

  /**
   Where a handler is: before its lookup, before its write, or with counter changes still owed.
   `counted` says that the free-vote count of a device has let the write pass.
   */
  datatype Phase =
    | Arrived
    | Looked(seen: Option<Choice>, counted: bool)
    | Committed(incr: Option<nat>, decr: Option<nat>)

  datatype Request = Request(ballot: Ballot, want: Choice, phase: Phase)

  datatype Ledger = Ledger(
    rows: map<Ballot, Choice>, stored: map<nat, int>, buffer: map<nat, int>, held: map<nat, int>,
    inflight: map<nat, Request>)

  datatype Step =
    | Begin(id: nat, ballot: Ballot, want: Choice)
    | Look(id: nat)
    | CountVotes(id: nat)
    | Commit(id: nat)
    | Apply(id: nat)
    | Refuse(id: nat)
    | FlushTake(item: nat)
    | FlushAdd(item: nat)
    | FlushFail(item: nat)

  // ---- the steps ----

  function RowOf(rows: map<Ballot, Choice>, b: Ballot): Option<Choice> {
    if b in rows then Some(rows[b]) else None
  }

  function PickOf(c: Option<Choice>): Option<nat> {
    match c
    case Some(Pick(item)) => Some(item)
    case _ => None
  }

  function Bump(m: map<nat, int>, x: nat, amount: int): map<nat, int> {
    m[x := Get(m, x) + amount]
  }

  function WithPhase(st: Ledger, id: nat, phase: Phase): Ledger
    requires id in st.inflight
  {
    st.(inflight := st.inflight[id := st.inflight[id].(phase := phase)])
  }

  function Done(st: Ledger, id: nat): Ledger {
    st.(inflight := st.inflight - {id})
  }

  /** A pick needs an existing item; request ids are never reused while in flight. */
  function BeginStep(st: Ledger, id: nat, ballot: Ballot, want: Choice): Ledger {
    if id in st.inflight || (want.Pick? && want.item !in st.stored) then st
    else st.(inflight := st.inflight[id := Request(ballot, want, Arrived)])
  }

  /** A voter whose row already says what they ask for is answered without a write. */
  function LookStep(st: Ledger, id: nat): Ledger {
    if id !in st.inflight || !st.inflight[id].phase.Arrived? then st
    else
      var seen := RowOf(st.rows, st.inflight[id].ballot);
      if seen == Some(st.inflight[id].want) then Done(st, id) else WithPhase(st, id, Looked(seen, false))
  }

  const ANON_VOTE_CAP := 3

  function UsedBallots(rows: map<Ballot, Choice>, v: Voter): set<Ballot> {
    set b | b in rows && b.voter == v && rows[b].Pick?
  }

  /** The cap applies to the first pick of a device on a matchup; a row that exists is not checked. */
  predicate NeedsCount(req: Request) {
    req.ballot.voter.Device? && req.want.Pick? && req.phase.Looked? && req.phase.seen.None?
  }

  /** The device has no row on the matchup, and no free vote left. */
  predicate Capped(rows: map<Ballot, Choice>, ballot: Ballot) {
    ballot.voter.Device? && ballot !in rows && |UsedBallots(rows, ballot.voter)| >= ANON_VOTE_CAP
  }

  /** The count is one statement and the insert a later one. */
  function CountStep(st: Ledger, id: nat): Ledger {
    if id !in st.inflight || !NeedsCount(st.inflight[id]) || st.inflight[id].phase.counted then st
    else if |UsedBallots(st.rows, st.inflight[id].ballot.voter)| >= ANON_VOTE_CAP then Done(st, id)
    else WithPhase(st, id, Looked(None, true))
  }

  predicate MayCommit(st: Ledger, id: nat) {
    && id in st.inflight && st.inflight[id].phase.Looked?
    && (NeedsCount(st.inflight[id]) ==> st.inflight[id].phase.counted)
  }

  /** An insert that meets a row written meanwhile hits the unique index and fails. */
  function CommitStep(st: Ledger, id: nat): Ledger {
    if !MayCommit(st, id) then st
    else
      var req := st.inflight[id];
      if req.phase.seen.None? && req.ballot in st.rows then Done(st, id)
      else
        var written := st.(rows := if req.phase.seen.None? || req.ballot in st.rows
                                   then st.rows[req.ballot := req.want] else st.rows);
        WithPhase(written, id, Committed(PickOf(Some(req.want)), PickOf(req.phase.seen)))
  }

  /** The increment comes first, then the decrement, then the request ends. */
  function ApplyStep(st: Ledger, id: nat): Ledger {
    if id !in st.inflight || !st.inflight[id].phase.Committed? then st
    else
      match st.inflight[id].phase
      case Committed(Some(x), decr) => WithPhase(st, id, Committed(None, decr)).(buffer := Bump(st.buffer, x, 1))
      case Committed(None, Some(x)) => WithPhase(st, id, Committed(None, None)).(buffer := Bump(st.buffer, x, -1))
      case Committed(None, None) => Done(st, id)
  }

  /** A gate, the anonymous cap or a failed query ends a request before its write. */
  function RefuseStep(st: Ledger, id: nat): Ledger {
    if id !in st.inflight || st.inflight[id].phase.Committed? then st else Done(st, id)
  }

  function FlooredAtZero(votes: int): int {
    if votes < 0 then 0 else votes
  }

  /** The worker swaps the counter for zero; it never has two amounts of one item in hand. */
  function FlushTakeStep(st: Ledger, x: nat): Ledger {
    if Get(st.held, x) != 0 then st
    else st.(held := st.held[x := Get(st.buffer, x)], buffer := st.buffer[x := 0])
  }

  /** The update floors the column at zero; an amount of zero is not written, and a missing item takes none. */
  function FlushAddStep(st: Ledger, x: nat): Ledger {
    if Get(st.held, x) == 0 then st
    else if x !in st.stored then st.(held := st.held[x := 0])
    else st.(stored := st.stored[x := FlooredAtZero(st.stored[x] + st.held[x])], held := st.held[x := 0])
  }

  /** When the update fails the amount goes back to the counter. */
  function FlushFailStep(st: Ledger, x: nat): Ledger {
    st.(buffer := Bump(st.buffer, x, Get(st.held, x)), held := st.held[x := 0])
  }

  function TakeStep(st: Ledger, step: Step): Ledger {
    match step
    case Begin(id, ballot, want) => BeginStep(st, id, ballot, want)
    case Look(id) => LookStep(st, id)
    case CountVotes(id) => CountStep(st, id)
    case Commit(id) => CommitStep(st, id)
    case Apply(id) => ApplyStep(st, id)
    case Refuse(id) => RefuseStep(st, id)
    case FlushTake(x) => FlushTakeStep(st, x)
    case FlushAdd(x) => FlushAddStep(st, x)
    case FlushFail(x) => FlushFailStep(st, x)
  }

  function Run(st: Ledger, steps: seq<Step>): Ledger {
    if steps == [] then st else TakeStep(Run(st, steps[..|steps| - 1]), steps[|steps| - 1])
  }

  // ---- the balance ----

  ghost function Picks(x: nat): Choice -> bool {
    c => c == Pick(x)
  }

  ghost function OwesIncr(x: nat): Request -> bool {
    (r: Request) => r.phase.Committed? && r.phase.incr == Some(x)
  }

  ghost function OwesDecr(x: nat): Request -> bool {
    (r: Request) => r.phase.Committed? && r.phase.decr == Some(x)
  }

  /** The number of rows that pick `x`. */
  ghost function PickCount(st: Ledger, x: nat): nat {
    Count(st.rows, Picks(x))
  }

  ghost function Owed(st: Ledger, x: nat): int {
    Count(st.inflight, OwesIncr(x)) - Count(st.inflight, OwesDecr(x))
  }

  /** What has reached the counters: column, flush worker and buffer together. */
  ghost function Applied(st: Ledger, x: nat): int {
    Get(st.stored, x) + Get(st.held, x) + Get(st.buffer, x)
  }

  ghost function Drift(st: Ledger, x: nat): int {
    Applied(st, x) + Owed(st, x) - PickCount(st, x)
  }

  lemma OwedUpdate(inflight: map<nat, Request>, id: nat, r: Request, x: nat)
    ensures Count(inflight[id := r], OwesIncr(x))
         == Count(inflight, OwesIncr(x)) - Weigh(id in inflight && OwesIncr(x)(inflight[id])) + Weigh(OwesIncr(x)(r))
    ensures Count(inflight[id := r], OwesDecr(x))
         == Count(inflight, OwesDecr(x)) - Weigh(id in inflight && OwesDecr(x)(inflight[id])) + Weigh(OwesDecr(x)(r))
  {
    CountUpdate(inflight, id, r, OwesIncr(x));
    CountUpdate(inflight, id, r, OwesDecr(x));
  }

  lemma DoneKeepsOwed(st: Ledger, id: nat, x: nat)
    requires id in st.inflight ==> !OwesIncr(x)(st.inflight[id]) && !OwesDecr(x)(st.inflight[id])
    ensures Owed(Done(st, id), x) == Owed(st, x)
  {
    CountRemove(st.inflight, id, OwesIncr(x));
    CountRemove(st.inflight, id, OwesDecr(x));
  }

  /** The floor of the worker's update would change the result. */
  ghost predicate FloorBites(st: Ledger, step: Step, x: nat) {
    step == FlushAdd(x) && Get(st.held, x) != 0 && Get(st.stored, x) + Get(st.held, x) < 0
  }

  /** Everything but a commit moves amounts between the places that are summed, unless the worker's floor cuts one. */
  lemma OtherStepsKeepDriftIff(st: Ledger, step: Step, x: nat)
    requires !step.Commit? && x in st.stored
    ensures x in TakeStep(st, step).stored
    ensures Drift(TakeStep(st, step), x) == Drift(st, x) <==> !FloorBites(st, step, x)
  {
    match step
    case Begin(id, ballot, want) => BeginKeepsDrift(st, id, ballot, want, x);
    case Look(id) => LookKeepsDrift(st, id, x);
    case CountVotes(id) => CountKeepsDrift(st, id, x);
    case Apply(id) => ApplyKeepsDrift(st, id, x);
    case Refuse(id) => RefuseKeepsDrift(st, id, x);
    case FlushTake(y) => FlushMovesAmounts(st, y, x);
    case FlushAdd(y) => FlushAddKeepsDriftIff(st, y, x);
    case FlushFail(y) => FlushMovesAmounts(st, y, x);
  }

  lemma BeginKeepsDrift(st: Ledger, id: nat, ballot: Ballot, want: Choice, x: nat)
    ensures Drift(BeginStep(st, id, ballot, want), x) == Drift(st, x)
  {
    OwedUpdate(st.inflight, id, Request(ballot, want, Arrived), x);
  }

  lemma RefuseKeepsDrift(st: Ledger, id: nat, x: nat)
    ensures Drift(RefuseStep(st, id), x) == Drift(st, x)
  {
    if id in st.inflight && !st.inflight[id].phase.Committed? {
      DoneKeepsOwed(st, id, x);
    }
  }

  lemma FlushMovesAmounts(st: Ledger, y: nat, x: nat)
    ensures Drift(FlushTakeStep(st, y), x) == Drift(st, x)
    ensures Drift(FlushFailStep(st, y), x) == Drift(st, x)
  {
  }

  lemma FlushAddKeepsDriftIff(st: Ledger, y: nat, x: nat)
    requires x in st.stored
    ensures x in FlushAddStep(st, y).stored
    ensures Drift(FlushAddStep(st, y), x) == Drift(st, x) <==> !FloorBites(st, FlushAdd(y), x)
  {
  }

  lemma LookKeepsDrift(st: Ledger, id: nat, x: nat)
    ensures Drift(LookStep(st, id), x) == Drift(st, x)
  {
    if id in st.inflight && st.inflight[id].phase.Arrived? {
      var seen := RowOf(st.rows, st.inflight[id].ballot);
      if seen == Some(st.inflight[id].want) {
        DoneKeepsOwed(st, id, x);
      } else {
        OwedUpdate(st.inflight, id, st.inflight[id].(phase := Looked(seen, false)), x);
      }
    }
  }

  lemma CountKeepsDrift(st: Ledger, id: nat, x: nat)
    ensures Drift(CountStep(st, id), x) == Drift(st, x)
  {
    if id in st.inflight && NeedsCount(st.inflight[id]) {
      DoneKeepsOwed(st, id, x);
      OwedUpdate(st.inflight, id, st.inflight[id].(phase := Looked(None, true)), x);
    }
  }

  lemma ApplyKeepsDrift(st: Ledger, id: nat, x: nat)
    ensures Drift(ApplyStep(st, id), x) == Drift(st, x)
  {
    if id in st.inflight && st.inflight[id].phase.Committed? {
      var req := st.inflight[id];
      match req.phase
      case Committed(Some(y), decr) => PayKeepsDrift(st, id, Committed(None, decr), y, 1, x);
      case Committed(None, Some(y)) => PayKeepsDrift(st, id, Committed(None, None), y, -1, x);
      case Committed(None, None) => DoneKeepsOwed(st, id, x);
    }
  }

  /** Paying an owed change into the buffer. */
  lemma PayKeepsDrift(st: Ledger, id: nat, phase: Phase, y: nat, amount: int, x: nat)
    requires id in st.inflight && st.inflight[id].phase.Committed? && phase.Committed? && phase.incr == None
    requires var was := st.inflight[id].phase;
             || (amount == 1 && was == Committed(Some(y), phase.decr))
             || (amount == -1 && phase.decr == None && was == Committed(None, Some(y)))
    ensures Drift(WithPhase(st, id, phase).(buffer := Bump(st.buffer, y, amount)), x) == Drift(st, x)
  {
    OwedUpdate(st.inflight, id, st.inflight[id].(phase := phase), x);
  }

  /** The request would write, and its row is not the one it looked up. */
  ghost predicate Stale(st: Ledger, id: nat) {
    && MayCommit(st, id)
    && var req := st.inflight[id];
       && req.phase.seen.Some?
       && (req.ballot !in st.rows || PickOf(RowOf(st.rows, req.ballot)) != PickOf(req.phase.seen))
  }

  /** A commit moves the balance of `x` by exactly what it misjudged about the row it replaced. */
  lemma CommitDrift(st: Ledger, id: nat, x: nat)
    requires MayCommit(st, id)
    requires var req := st.inflight[id]; req.phase.seen.None? || req.ballot in st.rows
    ensures var req := st.inflight[id];
            Drift(CommitStep(st, id), x) == Drift(st, x)
              + (if req.phase.seen.None? then 0
                 else Weigh(PickOf(RowOf(st.rows, req.ballot)) == Some(x)) - Weigh(PickOf(req.phase.seen) == Some(x)))
  {
    var req := st.inflight[id];
    if req.phase.seen.None? && req.ballot in st.rows {
      DoneKeepsOwed(st, id, x);
    } else {
      CountUpdate(st.rows, req.ballot, req.want, Picks(x));
      OwedUpdate(st.inflight, id, req.(phase := Committed(PickOf(Some(req.want)), PickOf(req.phase.seen))), x);
    }
  }

  lemma LostRowDrift(st: Ledger, id: nat, x: nat)
    requires MayCommit(st, id)
    requires var req := st.inflight[id]; req.phase.seen.Some? && req.ballot !in st.rows
    ensures var req := st.inflight[id];
            Drift(CommitStep(st, id), x) == Drift(st, x)
              + Weigh(PickOf(Some(req.want)) == Some(x)) - Weigh(PickOf(req.phase.seen) == Some(x))
  {
    var req := st.inflight[id];
    OwedUpdate(st.inflight, id, req.(phase := Committed(PickOf(Some(req.want)), PickOf(req.phase.seen))), x);
  }

  /** A request that was looked up asks for something else than what it saw, and its items exist. */
  ghost predicate WellFormed(st: Ledger, id: nat)
    requires id in st.inflight
  {
    var req := st.inflight[id];
    && (req.want.Pick? ==> req.want.item in st.stored)
    && (req.phase.Looked? ==>
          && req.phase.seen != Some(req.want)
          && (PickOf(req.phase.seen).Some? ==> PickOf(req.phase.seen).value in st.stored))
    && (req.ballot in st.rows && st.rows[req.ballot].Pick? ==> st.rows[req.ballot].item in st.stored)
  }

  /** A commit keeps the balance of every item exactly when the row is still the one looked up. */
  lemma CommitBalancesIff(st: Ledger, id: nat)
    requires id in st.inflight && WellFormed(st, id)
    ensures (forall x :: x in st.stored ==> Drift(CommitStep(st, id), x) == Drift(st, x)) <==> !Stale(st, id)
  {
    var req := st.inflight[id];
    if MayCommit(st, id) {
      if req.phase.seen.Some? && req.ballot !in st.rows {
        var x := if req.want.Pick? then req.want.item else req.phase.seen.value.item;
        LostRowDrift(st, id, x);
      } else {
        forall x | x in st.stored
          ensures !Stale(st, id) ==> Drift(CommitStep(st, id), x) == Drift(st, x)
        {
          CommitDrift(st, id, x);
        }
        if Stale(st, id) {
          var now := PickOf(RowOf(st.rows, req.ballot));
          var x := if now.Some? then now.value else PickOf(req.phase.seen).value;
          CommitDrift(st, id, x);
        }
      }
    }
  }
}

/** A vote or skip request whose steps nothing interrupts. */
module VoteAlone {
  import opened Common
  import opened VoteLedger
  import opened VoteRuns

  function Paid(buffer: map<nat, int>, incr: Option<nat>, decr: Option<nat>): map<nat, int> {
    var up := match incr case Some(x) => Bump(buffer, x, 1) case None => buffer;
    match decr case Some(x) => Bump(up, x, -1) case None => up
  }

  /** The row moves, and one vote moves with it. */
  function Settled(st: Ledger, ballot: Ballot, want: Choice): Ledger {
    var seen := RowOf(st.rows, ballot);
    if seen == Some(want) then st
    else st.(rows := st.rows[ballot := want], buffer := Paid(st.buffer, PickOf(Some(want)), PickOf(seen)))
  }

  /**
   The ballot then says what was asked for, no other ballot changes, and one vote moves from the
   old pick to the new.
   */
  lemma SettledMovesOneVote(st: Ledger, ballot: Ballot, want: Choice, other: Ballot, x: nat)
    ensures var st', was := Settled(st, ballot, want), RowOf(st.rows, ballot);
            && RowOf(st'.rows, ballot) == Some(want)
            && (other != ballot ==> RowOf(st'.rows, other) == RowOf(st.rows, other))
            && Get(st'.buffer, x) == Get(st.buffer, x) + Weigh(want == Pick(x)) - Weigh(was == Some(Pick(x)))
            && PickCount(st', x) == PickCount(st, x) + Weigh(want == Pick(x)) - Weigh(was == Some(Pick(x)))
            && st'.stored == st.stored && st'.held == st.held && st'.inflight == st.inflight
  {
    CountUpdate(st.rows, ballot, want, Picks(x));
  }

  function Alone(st: Ledger, id: nat, ballot: Ballot, want: Choice): Ledger {
    var looked := CountStep(LookStep(BeginStep(st, id, ballot, want), id), id);
    ApplyStep(ApplyStep(ApplyStep(CommitStep(looked, id), id), id), id)
  }

  /** The steps of one request taken without interference add up to `Settled`, or to nothing at the free limit. */
  lemma AloneSettles(st: Ledger, id: nat, ballot: Ballot, want: Choice)
    requires id !in st.inflight && (want.Pick? ==> want.item in st.stored)
    ensures Alone(st, id, ballot, want)
         == if want.Pick? && Capped(st.rows, ballot) then st else Settled(st, ballot, want)
  {
    var seen := RowOf(st.rows, ballot);
    if seen == Some(want) {
      assert st.inflight[id := Request(ballot, want, Arrived)] - {id} == st.inflight;
    } else if want.Pick? && Capped(st.rows, ballot) {
      CappedAlone(st, id, ballot, want);
    } else {
      WrittenAlone(st, id, ballot, want);
      PaidInFull(st.(rows := st.rows[ballot := want]), id, ballot, want, PickOf(Some(want)), PickOf(seen));
    }
  }

  /** `st` with the request `id` in the given phase. */
  function With(st: Ledger, id: nat, ballot: Ballot, want: Choice, phase: Phase): Ledger {
    st.(inflight := st.inflight[id := Request(ballot, want, phase)])
  }

  lemma LookedAlone(st: Ledger, id: nat, ballot: Ballot, want: Choice)
    requires id !in st.inflight && (want.Pick? ==> want.item in st.stored) && RowOf(st.rows, ballot) != Some(want)
    ensures LookStep(BeginStep(st, id, ballot, want), id)
        == With(st, id, ballot, want, Looked(RowOf(st.rows, ballot), false))
  {
  }

  lemma CappedAlone(st: Ledger, id: nat, ballot: Ballot, want: Choice)
    requires id !in st.inflight && want.Pick? && want.item in st.stored && Capped(st.rows, ballot)
    ensures Alone(st, id, ballot, want) == st
  {
    LookedAlone(st, id, ballot, want);
    assert st.inflight[id := Request(ballot, want, Looked(None, false))] - {id} == st.inflight;
  }

  lemma WrittenAlone(st: Ledger, id: nat, ballot: Ballot, want: Choice)
    requires id !in st.inflight && (want.Pick? ==> want.item in st.stored) && RowOf(st.rows, ballot) != Some(want)
    requires !(want.Pick? && Capped(st.rows, ballot))
    ensures CommitStep(CountStep(LookStep(BeginStep(st, id, ballot, want), id), id), id)
         == With(st.(rows := st.rows[ballot := want]), id, ballot, want,
                 Committed(PickOf(Some(want)), PickOf(RowOf(st.rows, ballot))))
  {
    var seen := RowOf(st.rows, ballot);
    LookedAlone(st, id, ballot, want);
    var counts := ballot.voter.Device? && want.Pick? && seen.None?;
    CountedAlone(st, id, ballot, want, seen, counts);
    CommittedAlone(st, id, ballot, want, seen, counts);
  }

  lemma CountedAlone(st: Ledger, id: nat, ballot: Ballot, want: Choice, seen: Option<Choice>, counts: bool)
    requires seen == RowOf(st.rows, ballot) && !(want.Pick? && Capped(st.rows, ballot))
    requires counts <==> ballot.voter.Device? && want.Pick? && seen.None?
    ensures CountStep(With(st, id, ballot, want, Looked(seen, false)), id)
        == With(st, id, ballot, want, Looked(seen, counts))
  {
  }

  lemma CommittedAlone(st: Ledger, id: nat, ballot: Ballot, want: Choice, seen: Option<Choice>, counts: bool)
    requires seen == RowOf(st.rows, ballot)
    requires counts <==> ballot.voter.Device? && want.Pick? && seen.None?
    ensures CommitStep(With(st, id, ballot, want, Looked(seen, counts)), id)
         == With(st.(rows := st.rows[ballot := want]), id, ballot, want, Committed(PickOf(Some(want)), PickOf(seen)))
  {
  }

  lemma PaidInFull(st: Ledger, id: nat, ballot: Ballot, want: Choice, incr: Option<nat>, decr: Option<nat>)
    requires id !in st.inflight
    ensures ApplyStep(ApplyStep(ApplyStep(With(st, id, ballot, want, Committed(incr, decr)), id), id), id)
         == st.(buffer := Paid(st.buffer, incr, decr))
  {
    match incr
    case Some(x) =>
      PaidDown(st.(buffer := Bump(st.buffer, x, 1)), id, ballot, want, decr);
      assert ApplyStep(With(st, id, ballot, want, Committed(incr, decr)), id)
          == With(st.(buffer := Bump(st.buffer, x, 1)), id, ballot, want, Committed(None, decr));
    case None => PaidDown(st, id, ballot, want, decr);
  }

  lemma PaidDown(st: Ledger, id: nat, ballot: Ballot, want: Choice, decr: Option<nat>)
    requires id !in st.inflight
    ensures var paid := st.(buffer := Paid(st.buffer, None, decr));
            var twice := ApplyStep(ApplyStep(With(st, id, ballot, want, Committed(None, decr)), id), id);
            twice == paid && ApplyStep(twice, id) == paid
  {
    assert st.inflight[id := Request(ballot, want, Committed(None, None))] - {id} == st.inflight;
    if decr.Some? {
      assert ApplyStep(With(st, id, ballot, want, Committed(None, decr)), id)
          == With(st.(buffer := Bump(st.buffer, decr.value, -1)), id, ballot, want, Committed(None, None));
    }
  }

  // ---- as a run ----

  function AloneSteps(id: nat, ballot: Ballot, want: Choice): seq<Step> {
    [Begin(id, ballot, want), Look(id), CountVotes(id), Commit(id)] + [Apply(id), Apply(id), Apply(id)]
  }

  lemma AloneIsRun(st: Ledger, id: nat, ballot: Ballot, want: Choice)
    ensures Run(st, AloneSteps(id, ballot, want)) == Alone(st, id, ballot, want)
  {
    RunConcat(st, [Begin(id, ballot, want), Look(id), CountVotes(id), Commit(id)], [Apply(id), Apply(id), Apply(id)]);
    RunOfFour(st, Begin(id, ballot, want), Look(id), CountVotes(id), Commit(id));
    RunOfThree(CommitStep(CountStep(LookStep(BeginStep(st, id, ballot, want), id), id), id), Apply(id), Apply(id),
        Apply(id));
  }

  lemma AloneIsOrderly(st: Ledger, id: nat, ballot: Ballot, want: Choice)
    requires Idle(st, ballot)
    ensures Orderly(st, AloneSteps(id, ballot, want))
  {
    var first := [Begin(id, ballot, want)];
    var rest := [Look(id), CountVotes(id), Commit(id), Apply(id), Apply(id), Apply(id)];
    assert AloneSteps(id, ballot, want) == first + rest;
    assert first[..0] == [];
    NoBeginIsOrderly(Run(st, first), rest);
    OrderlyConcat(st, first, rest);
  }

  /** A request that runs alone extends an orderly run that has left no request in flight. */
  lemma AloneExtends(start: Ledger, steps: seq<Step>, st: Ledger, ballot: Ballot, want: Choice)
    requires Orderly(start, steps) && Run(start, steps) == st && st.inflight == map[]
    requires want.Pick? ==> want.item in st.stored && !Capped(st.rows, ballot)
    ensures Orderly(start, steps + AloneSteps(0, ballot, want))
    ensures Run(start, steps + AloneSteps(0, ballot, want)) == Settled(st, ballot, want)
  {
    AloneIsRun(st, 0, ballot, want);
    AloneSettles(st, 0, ballot, want);
    AloneIsOrderly(st, 0, ballot, want);
    OrderlyConcat(start, steps, AloneSteps(0, ballot, want));
    RunConcat(start, steps, AloneSteps(0, ballot, want));
  }
}

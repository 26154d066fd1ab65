/**
 The vote tables and counters as one object: the vote and skip handlers run alone, the worker's
 pass, the merge at sign-in, and the nightly reconcile. Each is tied to the interleaved ledger.
 */
module VoteStore {
  import opened Common
  import opened VoteLedger
  import opened VoteRuns
  import opened VoteAlone
  import opened VoteMerge
  import opened VoteCap

  datatype Outcome = Counted | AlreadyRecorded | ItemNotFound | FreeLimitReached

  // ---- reconcile ----

  /** The columns rewritten from the rows. */
  ghost function Reconciled(st: Ledger): Ledger {
    st.(stored := map x | x in st.stored :: PickCount(st, x))
  }

  ghost function Drifted(st: Ledger): set<nat> {
    set x | x in st.stored && st.stored[x] != PickCount(st, x)
  }

  /** Nothing has to reach the column of `x` any more. */
  ghost predicate Settles(st: Ledger, x: nat) {
    Get(st.held, x) == 0 && Get(st.buffer, x) == 0 && Owed(st, x) == 0
  }

  /** Reconciling changes no row, so requests in flight still agree with theirs. */
  lemma ReconcileKeepsTidy(st: Ledger)
    requires Tidy(st)
    ensures Tidy(Reconciled(st))
  {
  }

  /** The item is balanced after every orderly continuation. */
  ghost predicate StaysBalanced(st: Ledger, x: nat) {
    forall steps: seq<Step> :: Orderly(st, steps) ==> Drift(Run(st, steps), x) == 0
  }

  lemma StaysBalancedIff(st: Ledger, x: nat)
    requires Tidy(st) && x in st.stored && st.stored[x] >= 0
    ensures StaysBalanced(st, x) <==> Drift(st, x) == 0 && Floored(st, x)
  {
    if Drift(st, x) == 0 && Floored(st, x) {
      forall steps: seq<Step> | Orderly(st, steps)
        ensures Drift(Run(st, steps), x) == 0
      {
        RunKeepsDrift(st, steps, x);
      }
    } else if Drift(st, x) != 0 {
      var none: seq<Step> := [];
      assert Orderly(st, none) && Run(st, none) == st;
    } else {
      var flush := [FlushAdd(x)];
      assert flush[..0] == [] && Orderly(st, []) && Run(st, []) == st;
      assert Orderly(st, flush) && Run(st, flush) == TakeStep(st, FlushAdd(x));
      OtherStepsKeepDriftIff(st, FlushAdd(x), x);
    }
  }

  /**
   From any tidy state, however its columns have drifted: after a reconcile an item is balanced
   in every orderly continuation exactly when what was pending for it cancels out and the amount
   in the worker's hands does not take more votes away than there are pick rows.
   */
  lemma ReconcileRestoresIff(st: Ledger, x: nat)
    requires Tidy(st) && x in st.stored
    ensures StaysBalanced(Reconciled(st), x) <==>
            Get(st.held, x) + Get(st.buffer, x) + Owed(st, x) == 0 && PickCount(st, x) + Get(st.held, x) >= 0
  {
    ReconcileKeepsTidy(st);
    StaysBalancedIff(Reconciled(st), x);
    assert PickCount(Reconciled(st), x) == PickCount(st, x);
  }

  /** With nothing pending, a reconcile also makes every later floor of the worker unnecessary. */
  lemma ReconcileRestoresFloor(st: Ledger, steps: seq<Step>, x: nat)
    requires Tidy(st) && x in st.stored && Settles(st, x) && Orderly(Reconciled(st), steps)
    ensures var st' := Run(Reconciled(st), steps);
            && x in st'.stored && Drift(st', x) == 0 && Applied(st', x) >= 0 && Floored(st', x)
  {
    ReconcileKeepsTidy(st);
    assert PickCount(Reconciled(st), x) == PickCount(st, x);
    RunKeepsDrift(Reconciled(st), steps, x);
  }

  /** A second pass finds nothing to fix. */
  lemma ReconcileIsIdempotent(st: Ledger)
    ensures Drifted(Reconciled(st)) == {} && Reconciled(Reconciled(st)) == Reconciled(st)
  {
    assert forall y :: y in st.stored ==> PickCount(Reconciled(st), y) == PickCount(st, y);
  }

  // ---- the free-vote limit for a request that runs alone ----

  /**
   A pick that runs alone keeps a device within the limit except in one case: the limit is used
   up and the pick replaces a skip. What overlapping requests do is bounded in `VoteCap`.
   */
  lemma LimitHoldsAloneIff(st: Ledger, id: nat, d: string, m: nat, x: nat)
    requires id !in st.inflight && x in st.stored && Used(st, d) <= ANON_VOTE_CAP
    ensures Used(Alone(st, id, Ballot(Device(d), m), Pick(x)), d) <= ANON_VOTE_CAP <==>
            !(RowOf(st.rows, Ballot(Device(d), m)) == Some(Skip) && Used(st, d) == ANON_VOTE_CAP)
  {
    AloneSettles(st, id, Ballot(Device(d), m), Pick(x));
    UsedUpdate(st.rows, Ballot(Device(d), m), Pick(x), Device(d));
  }

  // ---- a pass of the flush worker ----

  /** The steps of the worker for one counter, taken together. */
  function Flushed(st: Ledger, x: nat, fails: bool): Ledger {
    var taken := FlushTakeStep(st, x);
    if Get(taken.held, x) == 0 then taken else if fails then FlushFailStep(taken, x) else FlushAddStep(taken, x)
  }

  function FlushPass(st: Ledger, keys: seq<nat>, fails: nat -> bool): Ledger {
    if keys == [] then st
    else
      var last := keys[|keys| - 1];
      Flushed(FlushPass(st, keys[..|keys| - 1], fails), last, fails(last))
  }

  /** The column is not negative, nor is it with the buffer, and the worker has nothing in hand. */
  ghost predicate AtRest(st: Ledger, x: nat) {
    x in st.stored && st.stored[x] >= 0 && st.stored[x] + Get(st.buffer, x) >= 0 && Get(st.held, x) == 0
  }

  lemma FlushedKeepsMerged(st: Ledger, y: nat, fails: bool, x: nat)
    requires AtRest(st, x)
    ensures var st' := Flushed(st, y, fails);
            && AtRest(st', x) && st'.stored[x] + Get(st'.buffer, x) == st.stored[x] + Get(st.buffer, x)
            && Get(st'.buffer, x) == if y == x && !fails then 0 else Get(st.buffer, x)
  {
  }

  /**
   An undisturbed pass keeps the merged count of every item, failed updates or not; a scanned
   counter without failure ends at zero.
   */
  lemma {:induction false} FlushPassKeepsMerged(st: Ledger, keys: seq<nat>, fails: nat -> bool, x: nat)
    requires AtRest(st, x)
    ensures var st' := FlushPass(st, keys, fails);
            && AtRest(st', x) && st'.stored[x] + Get(st'.buffer, x) == st.stored[x] + Get(st.buffer, x)
            && (x in keys && !fails(x) ==> Get(st'.buffer, x) == 0)
  {
    if keys != [] {
      var front, last := keys[..|keys| - 1], keys[|keys| - 1];
      FlushPassKeepsMerged(st, front, fails, x);
      FlushedKeepsMerged(FlushPass(st, front, fails), last, fails(last), x);
      assert x in keys <==> x in front || x == last;
    }
  }

  class VoteStore {
    var rows: map<Ballot, Choice>
    var stored: map<nat, int>
    var buffer: map<nat, int>
    ghost var held: map<nat, int>

    /** The store between requests: nothing is in flight, and `held` is what the worker has in hand. */
    ghost function View(): Ledger
      reads this
    {
      Ledger(rows, stored, buffer, held, map[])
    }

    method VoteItem(ballot: Ballot, item: nat) returns (outcome: Outcome)
      modifies this`rows, this`buffer
      ensures outcome == ItemNotFound <==> item !in stored
      ensures outcome == FreeLimitReached <==> item in stored && Capped(old(rows), ballot)
      ensures outcome == AlreadyRecorded <==> item in stored && RowOf(old(rows), ballot) == Some(Pick(item))
      ensures View() == if outcome == Counted then Settled(old(View()), ballot, Pick(item)) else old(View())
    {
      if item !in stored {
        return ItemNotFound;
      }
      var decr := None;
      if ballot in rows {
        if rows[ballot] == Pick(item) {
          return AlreadyRecorded;
        }
        decr := PickOf(Some(rows[ballot]));
      } else if ballot.voter.Device? {
        var used := CountUsed(ballot.voter);
        if used >= ANON_VOTE_CAP {
          return FreeLimitReached;
        }
      }
      rows := rows[ballot := Pick(item)];
      buffer := Bump(buffer, item, 1);
      if decr.Some? {
        buffer := Bump(buffer, decr.value, -1);
      }
      return Counted;
    }

    method SkipMatchup(ballot: Ballot) returns (outcome: Outcome)
      modifies this`rows, this`buffer
      ensures outcome == if RowOf(old(rows), ballot) == Some(Skip) then AlreadyRecorded else Counted
      ensures View() == Settled(old(View()), ballot, Skip)
    {
      var decr := None;
      if ballot in rows {
        if rows[ballot] == Skip {
          return AlreadyRecorded;
        }
        decr := PickOf(Some(rows[ballot]));
      }
      rows := rows[ballot := Skip];
      if decr.Some? {
        buffer := Bump(buffer, decr.value, -1);
      }
      return Counted;
    }

    method CountUsed(v: Voter) returns (n: nat)
      ensures n == |UsedBallots(rows, v)|
    {
      n := 0;
      var todo := rows.Keys;
      ghost var whole := UsedBallots(rows, v);
      assert whole - todo == {};
      while todo != {}
        invariant todo <= rows.Keys && n == |whole - todo|
      {
        var b :| b in todo;
        CountOneMore(whole, todo, b);
        todo := todo - {b};
        if b.voter == v && rows[b].Pick? {
          n := n + 1;
        }
      }
      assert whole - todo == whole;
    }

    method CountPicks(x: nat) returns (n: nat)
      ensures n == Count(rows, Picks(x))
    {
      n := 0;
      var todo := rows.Keys;
      ghost var whole := KeysWhere(rows, Picks(x));
      assert whole - todo == {};
      while todo != {}
        invariant todo <= rows.Keys && n == |whole - todo|
      {
        var b :| b in todo;
        CountOneMore(whole, todo, b);
        todo := todo - {b};
        if rows[b] == Pick(x) {
          n := n + 1;
        }
      }
      assert whole - todo == whole;
    }

    /** The transaction works on its own view of the tables and publishes it when it commits. */
    method MergeDeviceVotesToUser(u: nat, d: string, votes: seq<nat>) returns (r: Result<bool, MergeError>)
      requires DeviceRows(View(), d, votes)
      modifies this`rows, this`stored
      ensures d == "" ==> r == Ok(true) && View() == old(View())
      ensures d != "" ==>
                match MergeAll(old(View()), d, u, votes)
                case Ok(st) => r == Ok(true) && View() == st
                case Err(e) => r == Err(e) && View() == old(View())
    {
      if d == "" {
        return Ok(true);
      }
      var txRows: map<Ballot, Choice>, txStored: map<nat, int> := rows, stored;
      ghost var start := View();
      for i := 0 to |votes|
        invariant MergeAll(start, d, u, votes[..i]) == Ok(start.(rows := txRows, stored := txStored))
        invariant View() == start
      {
        assert votes[..i + 1][..i] == votes[..i];
        MergeAllRows(start, d, u, votes[..i], DeviceBallot(d, votes[i]));
        var vote, existing := txRows[DeviceBallot(d, votes[i])], UserBallot(u, votes[i]) in txRows;
        if existing && vote.Pick? {
          if vote.item !in txStored {
            MergeStops(start, d, u, votes, i + 1);
            return Err(ItemMissing);
          }
          var count := txStored[vote.item];
          txStored := txStored[vote.item := if count > 0 then count - 1 else 0];
        }
        txRows := txRows - {DeviceBallot(d, votes[i])};
        if !existing {
          txRows := txRows[UserBallot(u, votes[i]) := vote];
        }
      }
      assert votes[..|votes|] == votes;
      rows, stored := txRows, txStored;
      return Ok(true);
    }

    /** The worker's turn for one counter: swap, then update, or put back when the update fails. */
    method FlushItem(x: nat, fails: bool)
      requires Get(held, x) == 0
      modifies this`stored, this`buffer, this`held
      ensures Get(held, x) == 0 && forall y :: y != x ==> Get(held, y) == old(Get(held, y))
      ensures View() == Flushed(old(View()), x, fails)
    {
      var delta := if x in buffer then buffer[x] else 0;
      buffer := buffer[x := 0];
      held := held[x := delta];
      if delta == 0 {
        return;
      }
      if fails {
        buffer := buffer[x := buffer[x] + delta];
      } else if x in stored {
        var votes := stored[x] + delta;
        stored := stored[x := if votes < 0 then 0 else votes];
      }
      held := held[x := 0];
    }

    /** One pass over the scanned counters; a key may be scanned twice. */
    method FlushVotesOnce(keys: seq<nat>, fails: nat -> bool)
      requires forall x :: Get(held, x) == 0
      modifies this`stored, this`buffer, this`held
      ensures View() == FlushPass(old(View()), keys, fails)
    {
      for i := 0 to |keys|
        invariant forall x :: Get(held, x) == 0
        invariant View() == FlushPass(old(View()), keys[..i], fails)
      {
        assert keys[..i + 1][..i] == keys[..i];
        FlushItem(keys[i], fails(keys[i]));
      }
      assert keys[..|keys|] == keys;
    }

    /** The number of pick rows for every item, also for items nobody picked. */
    method TrueCounts() returns (truths: map<nat, int>)
      ensures truths == Reconciled(View()).stored
    {
      truths := map[];
      var todo := stored.Keys;
      while todo != {}
        invariant todo <= stored.Keys && truths.Keys == stored.Keys - todo
        invariant forall x :: x in truths ==> truths[x] == Count(rows, Picks(x))
      {
        var x :| x in todo;
        todo := todo - {x};
        var n := CountPicks(x);
        truths := truths[x := n];
      }
    }

    /** Rewrites the columns that disagree with the rows and reports how many there were. */
    method ReconcileVoteCounts() returns (fixed: nat)
      modifies this`stored
      ensures View() == Reconciled(old(View()))
      ensures fixed == |Drifted(old(View()))|
    {
      var truths := TrueCounts();
      assert Differing(stored, truths) == Drifted(View());
      stored, fixed := UpdateDiffering(stored, truths);
    }
  }

  ghost function Differing(columns: map<nat, int>, truths: map<nat, int>): set<nat>
    requires columns.Keys == truths.Keys
  {
    set x | x in columns && columns[x] != truths[x]
  }

  method UpdateDiffering(columns: map<nat, int>, truths: map<nat, int>) returns (updated: map<nat, int>, fixed: nat)
    requires columns.Keys == truths.Keys
    ensures updated == truths && fixed == |Differing(columns, truths)|
  {
    updated, fixed := columns, 0;
    var todo := columns.Keys;
    assert Differing(columns, truths) - todo == {};
    while todo != {}
      invariant todo <= columns.Keys && updated.Keys == columns.Keys
      invariant forall x :: x in columns ==> updated[x] == if x in todo then columns[x] else truths[x]
      invariant fixed == |Differing(columns, truths) - todo|
    {
      var x :| x in todo;
      CountOneMore(Differing(columns, truths), todo, x);
      todo := todo - {x};
      if columns[x] != truths[x] {
        updated, fixed := updated[x := truths[x]], fixed + 1;
      }
    }
    assert Differing(columns, truths) - todo == Differing(columns, truths);
  }
}

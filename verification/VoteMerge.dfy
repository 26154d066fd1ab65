/**
 Moving a device's votes to the account that signed in on it. The transaction walks the device's
 rows in whatever order the query returns them; an error rolls everything back.
 */
module VoteMerge {
  import opened Common
  import opened VoteLedger
  import opened VoteRuns
  import opened VoteAlone

  datatype MergeError = ItemMissing

  function DeviceBallot(d: string, m: nat): Ballot {
    Ballot(Device(d), m)
  }

  function UserBallot(u: nat, m: nat): Ballot {
    Ballot(User(u), m)
  }

  function LoweredOnce(votes: int): int {
    if votes > 0 then votes - 1 else 0
  }

  /** One of the device's rows: dropped when the user already has a row there, handed over otherwise. */
  function MergeOne(st: Ledger, d: string, u: nat, m: nat): Result<Ledger, MergeError>
    requires DeviceBallot(d, m) in st.rows
  {
    var vote := st.rows[DeviceBallot(d, m)];
    var rest := st.rows - {DeviceBallot(d, m)};
    if UserBallot(u, m) !in st.rows then Ok(st.(rows := rest[UserBallot(u, m) := vote]))
    else
      match vote
      case Skip => Ok(st.(rows := rest))
      case Pick(x) =>
        if x !in st.stored then Err(ItemMissing)
        else Ok(st.(rows := rest, stored := st.stored[x := LoweredOnce(st.stored[x])]))
  }

  ghost predicate Distinct(ms: seq<nat>) {
    forall i, j :: 0 <= i < j < |ms| ==> ms[i] != ms[j]
  }

  /** `ms` lists matchups on which the device has a row, each once. */
  ghost predicate DeviceRows(st: Ledger, d: string, ms: seq<nat>) {
    Distinct(ms) && forall m :: m in ms ==> DeviceBallot(d, m) in st.rows
  }

  /** The first error stops the walk. */
  function MergeAll(st: Ledger, d: string, u: nat, ms: seq<nat>): Result<Ledger, MergeError> {
    if ms == [] then Ok(st)
    else
      var last := ms[|ms| - 1];
      match MergeAll(st, d, u, ms[..|ms| - 1])
      case Err(e) => Err(e)
      case Ok(merged) => if DeviceBallot(d, last) in merged.rows then MergeOne(merged, d, u, last) else Ok(merged)
  }

  // ---- what the walk leaves ----

  /** The row of a ballot after the matchups in `ms` are merged. */
  function Expected(rows: map<Ballot, Choice>, d: string, u: nat, ms: seq<nat>, b: Ballot): Option<Choice> {
    if b.matchup !in ms then RowOf(rows, b)
    else if b.voter == Device(d) then None
    else if b.voter == User(u) && b !in rows then RowOf(rows, DeviceBallot(d, b.matchup))
    else RowOf(rows, b)
  }

  lemma {:induction false} MergeAllRows(st: Ledger, d: string, u: nat, ms: seq<nat>, b: Ballot)
    requires DeviceRows(st, d, ms) && MergeAll(st, d, u, ms).Ok?
    ensures RowOf(MergeAll(st, d, u, ms).value.rows, b) == Expected(st.rows, d, u, ms, b)
  {
    if ms != [] {
      var before, last := ms[..|ms| - 1], ms[|ms| - 1];
      assert forall m :: m in ms <==> m in before || m == last;
      assert last !in before;
      MergeAllRows(st, d, u, before, b);
      MergeAllRows(st, d, u, before, DeviceBallot(d, last));
      MergeAllRows(st, d, u, before, UserBallot(u, last));
    }
  }

  /** Merging all of the device's rows: none is left, and the user keeps old votes and gains the others. */
  lemma MergeMovesVotes(st: Ledger, d: string, u: nat, ms: seq<nat>, m: nat)
    requires DeviceRows(st, d, ms) && MergeAll(st, d, u, ms).Ok?
    requires forall b :: b in st.rows && b.voter == Device(d) ==> b.matchup in ms
    ensures var rows' := MergeAll(st, d, u, ms).value.rows;
            && DeviceBallot(d, m) !in rows'
            && RowOf(rows', UserBallot(u, m)) ==
               (if UserBallot(u, m) in st.rows then RowOf(st.rows, UserBallot(u, m))
                   else RowOf(st.rows, DeviceBallot(d, m)))
    ensures forall b: Ballot :: b.voter != Device(d) && b.voter != User(u) ==>
              RowOf(MergeAll(st, d, u, ms).value.rows, b) == RowOf(st.rows, b)
  {
    MergeAllRows(st, d, u, ms, DeviceBallot(d, m));
    MergeAllRows(st, d, u, ms, UserBallot(u, m));
    forall b: Ballot | b.voter != Device(d) && b.voter != User(u)
      ensures RowOf(MergeAll(st, d, u, ms).value.rows, b) == RowOf(st.rows, b)
    {
      MergeAllRows(st, d, u, ms, b);
    }
  }

  // ---- votes ----

  /** The device's vote on `m` is for `x` and gives way to a row of the user. */
  predicate Drops(rows: map<Ballot, Choice>, d: string, u: nat, m: nat, x: nat) {
    RowOf(rows, DeviceBallot(d, m)) == Some(Pick(x)) && UserBallot(u, m) in rows
  }

  function Dropped(rows: map<Ballot, Choice>, d: string, u: nat, ms: seq<nat>, x: nat): nat {
    if ms == [] then 0
    else Dropped(rows, d, u, ms[..|ms| - 1], x) + if Drops(rows, d, u, ms[|ms| - 1], x) then 1 else 0
  }

  /** Lowering a count one vote at a time, floored at zero. */
  function Lowered(votes: int, n: nat): int {
    if n == 0 then votes else if votes < n then 0 else votes - n
  }

  /** How one merged row moves the pick rows, the column and the rest. */
  lemma MergeOneEffect(st: Ledger, d: string, u: nat, m: nat, x: nat)
    requires DeviceBallot(d, m) in st.rows && MergeOne(st, d, u, m).Ok?
    ensures var st', n := MergeOne(st, d, u, m).value, Weigh(Drops(st.rows, d, u, m, x));
            && PickCount(st', x) == PickCount(st, x) - n
            && (x in st.stored <==> x in st'.stored)
            && (x in st.stored ==> st'.stored[x] == Lowered(st.stored[x], n))
            && st' == st.(rows := st'.rows, stored := st'.stored)
  {
    var rest := st.rows - {DeviceBallot(d, m)};
    CountRemove(st.rows, DeviceBallot(d, m), Picks(x));
    CountUpdate(rest, UserBallot(u, m), st.rows[DeviceBallot(d, m)], Picks(x));
  }

  lemma {:induction false} MergeAllEffect(st: Ledger, d: string, u: nat, ms: seq<nat>, x: nat)
    requires DeviceRows(st, d, ms) && MergeAll(st, d, u, ms).Ok?
    ensures var st', n := MergeAll(st, d, u, ms).value, Dropped(st.rows, d, u, ms, x);
            && PickCount(st', x) == PickCount(st, x) - n
            && (x in st.stored <==> x in st'.stored)
            && (x in st.stored ==> st'.stored[x] == Lowered(st.stored[x], n))
            && st' == st.(rows := st'.rows, stored := st'.stored)
  {
    if ms != [] {
      var before, last := ms[..|ms| - 1], ms[|ms| - 1];
      assert forall m :: m in ms <==> m in before || m == last;
      assert last !in before;
      MergeAllEffect(st, d, u, before, x);
      MergeAllRows(st, d, u, before, DeviceBallot(d, last));
      MergeAllRows(st, d, u, before, UserBallot(u, last));
      MergeOneEffect(MergeAll(st, d, u, before).value, d, u, last, x);
    }
  }

  /** A merge keeps the balance of an item exactly when its column covers the votes that are dropped. */
  lemma MergeKeepsDriftIff(st: Ledger, d: string, u: nat, ms: seq<nat>, x: nat)
    requires DeviceRows(st, d, ms) && MergeAll(st, d, u, ms).Ok? && x in st.stored
    ensures Drift(MergeAll(st, d, u, ms).value, x) == Drift(st, x) <==>
            Dropped(st.rows, d, u, ms, x) == 0 || st.stored[x] >= Dropped(st.rows, d, u, ms, x)
  {
    MergeAllEffect(st, d, u, ms, x);
  }

  /** The device and the user vote for item 1 on matchup 7, one after the other, and nothing is flushed. */
  function BothVote(d: string, u: nat): seq<Step> {
    [] + AloneSteps(0, DeviceBallot(d, 7), Pick(1)) + AloneSteps(0, UserBallot(u, 7), Pick(1))
  }

  function DeviceVoted(d: string): Ledger {
    Ledger(map[DeviceBallot(d, 7) := Pick(1)], map[1 := 0], map[1 := 1], map[], map[])
  }

  function BothVoted(d: string, u: nat): Ledger {
    Ledger(map[DeviceBallot(d, 7) := Pick(1), UserBallot(u, 7) := Pick(1)], map[1 := 0], map[1 := 2], map[], map[])
  }

  lemma DeviceVoteSettles(d: string)
    ensures !Capped(Fresh({1}).rows, DeviceBallot(d, 7))
    ensures Settled(Fresh({1}), DeviceBallot(d, 7), Pick(1)) == DeviceVoted(d)
  {
    assert Fresh({1}).stored == map[1 := 0] && UsedBallots(Fresh({1}).rows, Device(d)) == {};
  }

  lemma UserVoteSettles(d: string, u: nat)
    ensures Settled(DeviceVoted(d), UserBallot(u, 7), Pick(1)) == BothVoted(d, u)
  {
  }

  lemma BothVoteRuns(d: string, u: nat)
    ensures Orderly(Fresh({1}), BothVote(d, u)) && Run(Fresh({1}), BothVote(d, u)) == BothVoted(d, u)
  {
    var first := [] + AloneSteps(0, DeviceBallot(d, 7), Pick(1));
    DeviceVoteSettles(d);
    AloneExtends(Fresh({1}), [], Fresh({1}), DeviceBallot(d, 7), Pick(1));
    AloneExtends(Fresh({1}), first, DeviceVoted(d), UserBallot(u, 7), Pick(1));
    UserVoteSettles(d, u);
  }

  /** A merge before the flush: the votes are still in the buffer, the column is too short, and one vote stays. */
  lemma ShortColumnDrifts(d: string, u: nat)
    ensures Orderly(Fresh({1}), BothVote(d, u)) && Run(Fresh({1}), BothVote(d, u)) == BothVoted(d, u)
    ensures Drift(BothVoted(d, u), 1) == 0
    ensures MergeAll(BothVoted(d, u), d, u, [7]).Ok? && Drift(MergeAll(BothVoted(d, u), d, u, [7]).value, 1) == 1
  {
    BothVoteRuns(d, u);
    ShortColumnMerge(BothVoted(d, u), d, u);
  }

  lemma ShortColumnMerge(st: Ledger, d: string, u: nat)
    requires st == BothVoted(d, u)
    ensures Drift(st, 1) == 0 && MergeAll(st, d, u, [7]).Ok? && Drift(MergeAll(st, d, u, [7]).value, 1) == 1
  {
    assert KeysWhere(st.rows, Picks(1)) == {DeviceBallot(d, 7), UserBallot(u, 7)};
    assert KeysWhere(st.inflight, OwesIncr(1)) == {} && KeysWhere(st.inflight, OwesDecr(1)) == {};
    assert [7][..0] == [] && Dropped(st.rows, d, u, [7], 1) == 1;
    MergeFailsIff(st, d, u, [7]);
    MergeAllEffect(st, d, u, [7], 1);
  }

  /** With nothing pending for an item, merging leaves its column equal to its pick rows. */
  lemma MergeKeepsCounts(st: Ledger, d: string, u: nat, ms: seq<nat>, x: nat)
    requires DeviceRows(st, d, ms) && MergeAll(st, d, u, ms).Ok? && x in st.stored
    requires st.stored[x] == PickCount(st, x)
    ensures var st' := MergeAll(st, d, u, ms).value; x in st'.stored && st'.stored[x] == PickCount(st', x)
  {
    MergeAllEffect(st, d, u, ms, x);
  }

  /** The merge fails exactly when a dropped vote is for an item that is gone. */
  lemma {:induction false} MergeFailsIff(st: Ledger, d: string, u: nat, ms: seq<nat>)
    requires DeviceRows(st, d, ms)
    ensures MergeAll(st, d, u, ms).Ok? <==>
            forall m :: m in ms && UserBallot(u, m) in st.rows && st.rows[DeviceBallot(d, m)].Pick? ==>
              st.rows[DeviceBallot(d, m)].item in st.stored
  {
    if ms != [] {
      var before, last := ms[..|ms| - 1], ms[|ms| - 1];
      assert forall m :: m in ms <==> m in before || m == last;
      assert last !in before;
      MergeFailsIff(st, d, u, before);
      if MergeAll(st, d, u, before).Ok? {
        MergeAllRows(st, d, u, before, DeviceBallot(d, last));
        MergeAllRows(st, d, u, before, UserBallot(u, last));
        var vote := st.rows[DeviceBallot(d, last)];
        if vote.Pick? {
          MergeAllEffect(st, d, u, before, vote.item);
        }
      }
    }
  }

  lemma {:induction false} MergeStops(st: Ledger, d: string, u: nat, ms: seq<nat>, i: nat)
    requires i <= |ms| && MergeAll(st, d, u, ms[..i]).Err?
    ensures MergeAll(st, d, u, ms) == MergeAll(st, d, u, ms[..i])
    decreases |ms|
  {
    if i < |ms| {
      assert ms[..|ms| - 1][..i] == ms[..i];
      MergeStops(st, d, u, ms[..|ms| - 1], i);
    } else {
      assert ms[..i] == ms;
    }
  }
}

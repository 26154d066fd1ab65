/**
 When rounds open and end: the windows that an advance and an update set, and which requested
 values an update takes over.
 */
module BracketSchedule {
  import opened Common
  import opened SeedLabels
  import opened Bracket
  import opened BracketTree
  import opened BracketAdvance

  // ---- when rounds open and end ----

  /** A round's length in timer mode: the stored duration, or a day when there is none. */
  function RoundLength(duration: int): int {
    if duration > 0 then duration else 86400
  }

  /** Where a matchup stands once its bracket is in round `current`, whose window is [start, end) or open-ended. */
  ghost predicate Scheduled(m: Matchup, m': Matchup, round: int, current: int, start: Option<int>, end: Option<int>) {
    if round < current then m'.status == Completed && m'.startTime == m.startTime && m'.endTime == m.endTime
    else if round == current then m'.status == Active && m'.startTime == start && m'.endTime == end
    else m'.status == Draft && m'.startTime == None && m'.endTime == None
  }

  /** The window that opens now. */
  ghost predicate WindowFrom(mode: string, duration: int, now: int, start: Option<int>, end: Option<int>) {
    if mode == "timer" then start == Some(now) && end == Some(now + RoundLength(duration))
    else start == None && end == None
  }

  /** The whole table around the current round. */
  ghost predicate AllScheduled(rounds: seq<seq<Matchup>>, rounds': seq<seq<Matchup>>, row: Row) {
    && SameShape(rounds, rounds')
    && forall r, i {:trigger rounds'[r][i]} :: 0 <= r < |rounds| && 0 <= i < |rounds[r]| ==>
         Scheduled(rounds[r][i], rounds'[r][i], r + 1, row.currentRound, row.startedAt, row.endsAt)
  }

  lemma SyncSchedules(rounds: seq<seq<Matchup>>, row: Row)
    requires row.mode != "timer" ==> row.startedAt == None && row.endsAt == None
    ensures AllScheduled(rounds, SyncRounds(rounds, row), row)
  {
  }

  ghost predicate SameTimes(ms: seq<Matchup>, ms': seq<Matchup>) {
    |ms'| == |ms| && forall i :: 0 <= i < |ms| ==>
        ms'[i].startTime == ms[i].startTime && ms'[i].endTime == ms[i].endTime
  }

  /** Deciding a round and filling the next one changes no times. */
  lemma FilledSchedules(rounds: seq<seq<Matchup>>, c: nat, current: seq<Matchup>, filled: seq<Matchup>, row: Row)
    requires 1 <= c < |rounds| && SameTimes(rounds[c - 1], current) && SameTimes(rounds[c], filled)
    requires row.mode != "timer" ==> row.startedAt == None && row.endsAt == None
    ensures AllScheduled(rounds, SyncRounds(rounds[c - 1 := current][c := filled], row), row)
  {
    SyncSchedules(rounds[c - 1 := current][c := filled], row);
  }

  lemma AdvanceOneSchedules(st: State, current: seq<Matchup>, now: int)
    requires 1 <= st.row.currentRound < |st.rounds| && AdvanceOne(st, current, now).Ok?
    requires SameTimes(st.rounds[st.row.currentRound - 1], current)
    ensures var st' := AdvanceOne(st, current, now).value;
            && WindowFrom(st.row.mode, st.row.duration, now, st'.row.startedAt, st'.row.endsAt)
            && AllScheduled(st.rounds, st'.rounds, st'.row)
  {
    var c, st' := st.row.currentRound, AdvanceOne(st, current, now).value;
    FilledSchedules(st.rounds, c, current, Populate(st.rounds[c], CollectWinners(current).value, st.nextItemId),
        st'.row);
  }

  lemma {:induction false} FinalizeKeepsTimes(ms: seq<Matchup>)
    ensures FinalizeAll(ms).Ok? ==> SameTimes(ms, FinalizeAll(ms).value)
  {
    if ms != [] {
      FinalizeKeepsTimes(ms[..|ms| - 1]);
    }
  }

  /**
   An advance to a further round closes the rounds before it with their times as they were, opens
   that round for its full length from now on, and leaves the later ones as drafts.
   */
  lemma AdvanceSchedules(k: nat, labels: seq<string>, st: State, now: int)
    requires Tree(k, labels, st) && Readable(k, labels) && st.row.currentRound < k && Advance(st, now).Ok?
    ensures var st' := Advance(st, now).value;
            && st'.row.currentRound == st.row.currentRound + 1
            && WindowFrom(st.row.mode, st.row.duration, now, st'.row.startedAt, st'.row.endsAt)
            && AllScheduled(st.rounds, st'.rounds, st'.row)
  {
    EarlierAdvance(k, labels, st, now);
    var current := EarlierAdvanceIsAdvanceOne(k, labels, st, now);
    FinalizeKeepsTimes(st.rounds[st.row.currentRound - 1]);
    AdvanceOneSchedules(st, current, now);
  }

  /** The bracket row keeps its mode, its status and its length, if it had one. */
  lemma AdvanceKeepsSettings(k: nat, labels: seq<string>, st: State, st': State, now: int)
    requires Tree(k, labels, st) && Readable(k, labels) && st.row.currentRound < k && Advance(st, now) == Ok(st')
    ensures st'.row.mode == st.row.mode && st'.row.status == st.row.status && st'.row.completedAt == st.row.completedAt
    ensures st'.row.duration == if st.row.mode == "timer" then RoundLength(st.row.duration) else st.row.duration
  {
    EarlierAdvance(k, labels, st, now);
  }

  /** In timer mode the round that was opened can be advanced automatically from its end on, and not before. */
  lemma WindowEnds(k: nat, labels: seq<string>, st: State, st': State, now: int, later: int)
    requires Tree(k, labels, st) && Readable(k, labels) && st.row.currentRound < k && Advance(st, now) == Ok(st')
    requires st.row.mode == "timer"
    ensures AutoFinalizes(st'.row, later) <==> later >= now + RoundLength(st.row.duration)
  {
    EarlierAdvance(k, labels, st, now);
  }

  // ---- what an update takes over ----

  /** Activating a bracket opens the current round for its full length; drafts stay drafts. */
  lemma ActivationSchedules(st: State, req: UpdateRequest, now: int)
    requires st.row.status != "active" && req.status == Some("active") && st.row.currentRound >= 1
    ensures var st' := Update(st, req, now);
            var mode, duration := GetOr(req.mode, st.row.mode), GetOr(req.duration, st.row.duration);
            && st'.row.status == "active" && st'.row.currentRound == st.row.currentRound
            && WindowFrom(mode, duration, now, st'.row.startedAt, st'.row.endsAt)
            && AllScheduled(st.rounds, st'.rounds, st'.row)
  {
    TrimmedIsFixed("timer");
    UpdateRestoresOrder(st.row, req, now);
    SyncSchedules(st.rounds, Update(st, req, now).row);
  }

  /** A request that names a mode for an active bracket, and leaves it active. */
  predicate RenamesMode(st: State, req: UpdateRequest) {
    st.row.status == "active" && req.mode.Some? && (req.status.None? || req.status == Some("active"))
  }

  /**
   Naming the mode of an active bracket re-syncs its matchups: a timer that has no window yet
   starts one now and a running one keeps its window, and any other mode ends it.
   */
  lemma ModeChangeSchedules(st: State, req: UpdateRequest, now: int)
    requires RenamesMode(st, req) && st.row.currentRound >= 1
    ensures var st' := Update(st, req, now);
            var duration := GetOr(req.duration, st.row.duration);
            && st'.row.currentRound == st.row.currentRound && AllScheduled(st.rounds, st'.rounds, st'.row)
            && (if req.mode == Some("timer") && st.row.endsAt.Some?
                then st'.row.startedAt == st.row.startedAt && st'.row.endsAt == st.row.endsAt
                else WindowFrom(req.mode.value, duration, now, st'.row.startedAt, st'.row.endsAt))
  {
    TrimmedIsFixed("timer");
    UpdateRestoresOrder(st.row, req, now);
    SyncSchedules(st.rounds, Update(st, req, now).row);
  }

  /** Any other request leaves every matchup alone. */
  lemma OtherUpdatesKeepMatchups(st: State, req: UpdateRequest, now: int)
    requires !RenamesMode(st, req) && !(req.status == Some("active") && st.row.status != "active")
    ensures Update(st, req, now).rounds == st.rounds && Update(st, req, now).nextItemId == st.nextItemId
  {
  }

  /** A requested value is stored, and a value that is not requested stays. */
  ghost predicate TakenOver<T>(requested: Option<T>, was: T, now: T) {
    now == match requested case Some(v) => v case None => was
  }

  /** The values asked for, or stored, are proper ones. */
  ghost predicate Proper(row: Row, req: UpdateRequest) {
    && GetOr(req.status, row.status) != "" && TrimSpace(GetOr(req.mode, row.mode)) != ""
    && GetOr(req.duration, row.duration) > 0 && row.currentRound >= 1
  }

  /** Proper values are taken over as they are, and the round and the completion time are never edited. */
  lemma UpdateTakesOver(row: Row, req: UpdateRequest, now: int)
    requires Proper(row, req)
    ensures var row' := UpdatedRow(row, req, now);
            && TakenOver(req.status, row.status, row'.status) && TakenOver(req.mode, row.mode, row'.mode)
            && TakenOver(req.duration, row.duration, row'.duration)
            && row'.currentRound == row.currentRound && row'.completedAt == row.completedAt
  {
  }

  /** A row that is in order: proper values, and a window only in timer mode. */
  ghost predicate InOrder(row: Row) {
    && row.status != "" && TrimSpace(row.mode) != "" && row.duration >= 0 && row.currentRound != 0
    && (row.mode != "timer" ==> row.startedAt == None && row.endsAt == None)
  }

  /** An update leaves the row in order, whatever it was and whatever was asked for. */
  lemma UpdateRestoresOrder(row: Row, req: UpdateRequest, now: int)
    ensures InOrder(UpdatedRow(row, req, now))
  {
    TrimmedIsFixed("manual");
  }

  /** A blank mode falls back to manual, an empty status to draft, a missing round to the first. */
  lemma UpdateFallsBack(row: Row, req: UpdateRequest, now: int)
    ensures var row' := UpdatedRow(row, req, now);
            && (GetOr(req.status, row.status) == "" ==> row'.status == "draft")
            && (TrimSpace(GetOr(req.mode, row.mode)) == "" ==> row'.mode == "manual")
            && (row.currentRound == 0 ==> row'.currentRound == 1)
            && (GetOr(req.duration, row.duration) < 0 && GetOr(req.mode, row.mode) != "timer" ==> row'.duration == 0)
  {
    TrimmedIsFixed("timer");
  }

  /** An update that asks for nothing changes nothing when the row is in order. */
  lemma EmptyUpdateChangesNothing(st: State, now: int)
    requires InOrder(st.row)
    ensures Update(st, UpdateRequest(None, None, None), now) == st
  {
  }
}

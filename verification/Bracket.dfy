/**
 The bracket state and its steps as functions: generation, round advance, and the owner's
 override, complete/reopen, ready-up, resolve-tie and update requests. A step that the source
 rejects, or whose transaction rolls back, leaves the state as it was.
 Rounds are numbered from 1 as in the source; `rounds[r - 1]` lists round r in seed order.
 */
module Bracket {
  import opened Common
  import opened SeedOrder
  import opened SeedLabels
  import opened Winner
  import opened Dedupe

  datatype Status = Draft | Active | Published | Completed

  datatype Matchup = Matchup(
    items: seq<Item>, status: Status, winner: Option<nat>, startTime: Option<int>, endTime: Option<int>)

  datatype Row = Row(
    status: string, currentRound: int, mode: string, duration: int,
    startedAt: Option<int>, endsAt: Option<int>, completedAt: Option<int>)

  datatype State = State(row: Row, rounds: seq<seq<Matchup>>, nextItemId: nat)

  datatype AdvanceError =
    | NoMatchups | TooManyItems | Undecidable | NextRoundPopulated | NotCompleted | WinnerMissing | InvalidState

  const DEFAULT_ROUND_DURATION := 86400

  // ---- generation ----

  function EntryText(entries: seq<string>, seed: nat): string {
    if 1 <= seed <= |entries| then entries[seed - 1] else ""
  }

  function SeedText(entries: seq<string>, seed: nat): string {
    FormatSeedLabel(seed, EntryText(entries, seed))
  }

  /** The labels of the seeds 1 .. 2^k. */
  function Labels(k: nat, entries: seq<string>): (labels: seq<string>)
    ensures |labels| == Pow2(k)
  {
    seq(Pow2(k), s requires 0 <= s < Pow2(k) => SeedText(entries, s + 1))
  }

  function LabelFor(labels: seq<string>, seed: nat): string {
    if 1 <= seed <= |labels| then labels[seed - 1] else ""
  }

  function SeedItem(k: nat, labels: seq<string>, slot: nat): Item
    requires slot < Pow2(k)
  {
    Item(slot + 1, LabelFor(labels, SeedAt(k, slot)), 0)
  }

  const EmptySlot := Matchup([], Draft, None, None, None)

  function FirstRound(k: nat, labels: seq<string>): (ms: seq<Matchup>)
    requires k >= 1
    ensures |ms| == Pow2(k - 1)
  {
    seq(Pow2(k - 1), i requires 0 <= i < Pow2(k - 1) =>
      EmptySlot.(items := [SeedItem(k, labels, 2 * i), SeedItem(k, labels, 2 * i + 1)]))
  }

  function GeneratedRound(k: nat, labels: seq<string>, r: nat): (ms: seq<Matchup>)
    requires r < k
    ensures |ms| == Pow2(k - 1 - r)
  {
    if r == 0 then FirstRound(k, labels) else seq(Pow2(k - 1 - r), _ => EmptySlot)
  }

  function NewRow(mode: string, duration: int): Row {
    Row("draft", 1, mode, duration, None, None, None)
  }

  function GeneratedRounds(k: nat, entries: seq<string>): seq<seq<Matchup>> {
    seq(k, r requires 0 <= r < k => GeneratedRound(k, Labels(k, entries), r))
  }

  /** The bracket of 2^k entries as `generateFullBracket` lays it out. */
  function Generated(k: nat, entries: seq<string>, mode: string, duration: int): State
    requires k >= 1
  {
    State(NewRow(mode, duration), GeneratedRounds(k, entries), Pow2(k) + 1)
  }

  // ---- round window and status sync ----

  function RoundWindow(row: Row, now: int): Row {
    if row.mode != "timer" then row.(startedAt := None, endsAt := None)
    else
      var duration := if row.duration <= 0 then DEFAULT_ROUND_DURATION else row.duration;
      row.(duration := duration, startedAt := Some(now), endsAt := Some(now + duration))
  }

  function SyncMatchup(m: Matchup, round: int, row: Row): Matchup {
    if round < row.currentRound then m.(status := Completed)
    else if round == row.currentRound then
      if row.mode == "timer" then m.(status := Active, startTime := row.startedAt, endTime := row.endsAt)
      else m.(status := Active, startTime := None, endTime := None)
    else m.(status := Draft, startTime := None, endTime := None)
  }

  function SyncRound(ms: seq<Matchup>, round: int, row: Row): (r: seq<Matchup>)
    ensures |r| == |ms|
  {
    seq(|ms|, i requires 0 <= i < |ms| => SyncMatchup(ms[i], round, row))
  }

  function SyncRounds(rounds: seq<seq<Matchup>>, row: Row): (synced: seq<seq<Matchup>>)
    ensures |synced| == |rounds|
  {
    seq(|rounds|, r requires 0 <= r < |rounds| => SyncRound(rounds[r], r + 1, row))
  }

  // ---- deciding a round ----

  predicate Decided(m: Matchup) {
    m.status == Completed && m.winner.Some?
  }

  function Stamp(m: Matchup, winner: nat): Matchup {
    m.(winner := Some(winner), status := Completed)
  }

  /** A matchup with a winner is kept; any other gets the winner by votes or seed. */
  function Finalize(m: Matchup): Result<Matchup, AdvanceError> {
    if Decided(m) then Ok(m)
    else
      match AdvanceWinner(m.items)
      case Ok(winner) => Ok(Stamp(m, winner))
      case Err(_) => Err(Undecidable)
  }

  function FinalizeAll(ms: seq<Matchup>): (r: Result<seq<Matchup>, AdvanceError>)
    ensures r.Ok? ==> |r.value| == |ms|
  {
    if ms == [] then Ok([])
    else
      match FinalizeAll(ms[..|ms| - 1])
      case Err(e) => Err(e)
      case Ok(done) =>
        match Finalize(ms[|ms| - 1])
        case Err(e) => Err(e)
        case Ok(m) => Ok(done + [m])
  }

  function ItemText(items: seq<Item>, id: nat): Option<string> {
    if items == [] then None
    else if items[0].id == id then Some(items[0].text)
    else ItemText(items[1..], id)
  }

  /** The label that a matchup sends on, as `WinnerItem` finds it. */
  function WinnerText(m: Matchup): Result<string, AdvanceError> {
    if m.winner.Some? then
      match ItemText(m.items, m.winner.value)
      case None => Err(WinnerMissing)
      case Some(text) => Ok(text)
    else if |m.items| != 2 || m.items[0].votes == m.items[1].votes then Err(WinnerMissing)
    else Ok(if m.items[0].votes > m.items[1].votes then m.items[0].text else m.items[1].text)
  }

  function CollectWinners(ms: seq<Matchup>): (r: Result<seq<string>, AdvanceError>)
    ensures r.Ok? ==> |r.value| == |ms|
  {
    if ms == [] then Ok([])
    else
      match CollectWinners(ms[..|ms| - 1])
      case Err(e) => Err(e)
      case Ok(done) =>
        var m := ms[|ms| - 1];
        if m.status != Completed then Err(NotCompleted)
        else
          match WinnerText(m)
          case Err(e) => Err(e)
          case Ok(text) => Ok(done + [text])
  }

  function DedupeAll(ms: seq<Matchup>): (r: Result<seq<Matchup>, AdvanceError>)
    ensures r.Ok? ==> |r.value| == |ms|
  {
    if ms == [] then Ok([])
    else
      match DedupeAll(ms[..|ms| - 1])
      case Err(e) => Err(e)
      case Ok(done) =>
        var m := ms[|ms| - 1];
        match DedupeItems(m.items, m.winner)
        case Err(_) => Err(TooManyItems)
        case Ok(items) => Ok(done + [m.(items := items)])
  }

  // ---- advance ----

  predicate AutoFinalizes(row: Row, now: int) {
    row.mode == "manual" || (row.mode == "timer" && row.endsAt.Some? && row.endsAt.value <= now)
  }

  predicate Populated(ms: seq<Matchup>) {
    exists i :: 0 <= i < |ms| && ms[i].items != []
  }

  function PopulatedMatchup(m: Matchup, a: string, b: string, id: nat): Matchup {
    m.(items := [Item(id, a, 0), Item(id + 1, b, 0)])
  }

  /** Matchup i of the next round receives winners 2i and 2i+1 as fresh items without votes. */
  function Populate(next: seq<Matchup>, winners: seq<string>, firstId: nat): (r: seq<Matchup>)
    requires |winners| == 2 * |next|
    ensures |r| == |next|
  {
    seq(|next|, i requires 0 <= i < |next| =>
      PopulatedMatchup(next[i], winners[2 * i], winners[2 * i + 1], firstId + 2 * i))
  }

  function NextRound(st: State): seq<Matchup> {
    if 0 <= st.row.currentRound < |st.rounds| then st.rounds[st.row.currentRound] else []
  }

  function Resolved(ms: seq<Matchup>, auto: bool): (r: Result<seq<Matchup>, AdvanceError>)
    ensures r.Ok? ==> |r.value| == |ms|
  {
    match DedupeAll(ms)
    case Err(e) => Err(e)
    case Ok(current) => if auto then FinalizeAll(current) else Ok(current)
  }

  /** The current round after dedupe and, when it applies, automatic winners. */
  function ResolvedRound(st: State, now: int): (r: Result<seq<Matchup>, AdvanceError>)
    ensures r.Ok? ==> 1 <= st.row.currentRound <= |st.rounds| && |r.value| == |st.rounds[st.row.currentRound - 1]|
  {
    var c := st.row.currentRound;
    if !(1 <= c <= |st.rounds|) || st.rounds[c - 1] == [] then Err(NoMatchups)
    else Resolved(st.rounds[c - 1], AutoFinalizes(st.row, now))
  }

  /** The last round: every matchup is decided and the bracket is marked completed. */
  function AdvanceFinal(st: State, current: seq<Matchup>, now: int): Result<State, AdvanceError>
    requires 1 <= st.row.currentRound <= |st.rounds|
  {
    match FinalizeAll(current)
    case Err(e) => Err(e)
    case Ok(done) =>
      Ok(st.(row := st.row.(status := "completed", completedAt := Some(now)),
             rounds := st.rounds[st.row.currentRound - 1 := done]))
  }

  /** Any other round: the winners fill the next round, which becomes the current one. */
  function AdvanceOne(st: State, current: seq<Matchup>, now: int): Result<State, AdvanceError>
    requires 1 <= st.row.currentRound < |st.rounds|
  {
    var c := st.row.currentRound;
    match CollectWinners(current)
    case Err(e) => Err(e)
    case Ok(winners) =>
      if |winners| != 2 * |st.rounds[c]| then Err(InvalidState)
      else
        var row := RoundWindow(st.row.(currentRound := c + 1), now);
        var filled := st.rounds[c - 1 := current][c := Populate(st.rounds[c], winners, st.nextItemId)];
        Ok(State(row, SyncRounds(filled, row), st.nextItemId + 2 * |st.rounds[c]|))
  }

  function MoveOn(st: State, current: seq<Matchup>, now: int): Result<State, AdvanceError>
    requires 1 <= st.row.currentRound <= |st.rounds|
  {
    if Populated(NextRound(st)) then Err(NextRoundPopulated)
    else if NextRound(st) == [] then AdvanceFinal(st, current, now)
    else AdvanceOne(st, current, now)
  }

  function Advance(st: State, now: int): Result<State, AdvanceError> {
    match ResolvedRound(st, now)
    case Err(e) => Err(e)
    case Ok(current) => MoveOn(st, current, now)
  }

  /** A refused advance is rolled back. */
  function AdvanceOrStay(st: State, now: int): State {
    match Advance(st, now)
    case Ok(advanced) => advanced
    case Err(_) => st
  }

  // ---- owner requests ----

  predicate OnBoard(st: State, round: int, i: int) {
    1 <= round <= |st.rounds| && 0 <= i < |st.rounds[round - 1]|
  }

  function WithMatchup(st: State, round: int, i: int, m: Matchup): State
    requires OnBoard(st, round, i)
  {
    st.(rounds := st.rounds[round - 1 := st.rounds[round - 1][i := m]])
  }

  predicate OpenToOwner(st: State, round: int, i: int) {
    OnBoard(st, round, i) && st.row.status == "active" && round == st.row.currentRound
  }

  function Override(st: State, round: int, i: int, winner: nat): State {
    if OpenToOwner(st, round, i) && HasId(st.rounds[round - 1][i].items, winner)
    then WithMatchup(st, round, i, Stamp(st.rounds[round - 1][i], winner))
    else st
  }

  /** Completing a completed matchup reopens it; a tie without a chosen winner is rejected. */
  function Complete(st: State, round: int, i: int): State {
    if !OpenToOwner(st, round, i) then st
    else
      var m := st.rounds[round - 1][i];
      if m.status == Completed then WithMatchup(st, round, i, m.(status := Active, winner := None))
      else
        match CompleteWinner(m.items, m.winner)
        case Err(_) => st
        case Ok(winner) => WithMatchup(st, round, i, Stamp(m, winner))
  }

  /** Ready-up looks only at the matchup: it needs a winner, in any round of any bracket. */
  function ReadyUp(st: State, round: int, i: int): State {
    if OnBoard(st, round, i) && st.rounds[round - 1][i].winner.Some?
    then WithMatchup(st, round, i, st.rounds[round - 1][i].(status := Completed))
    else st
  }

  function ResolveTie(st: State, round: int, i: int, winner: nat, now: int): State {
    if OpenToOwner(st, round, i) && HasId(st.rounds[round - 1][i].items, winner)
    then
      var chosen := WithMatchup(st, round, i, Stamp(st.rounds[round - 1][i], winner));
      AdvanceOrStay(chosen, now)
    else st
  }

  datatype UpdateRequest = UpdateRequest(status: Option<string>, mode: Option<string>, duration: Option<int>)

  function Prepare(row: Row): Row {
    row.(status := if row.status == "" then "draft" else row.status,
         currentRound := if row.currentRound == 0 then 1 else row.currentRound,
         mode := if TrimSpace(row.mode) == "" then "manual" else row.mode,
         duration := if row.duration < 0 then 0 else row.duration)
  }

  function GetOr<T>(o: Option<T>, default: T): T {
    match o case Some(v) => v case None => default
  }

  predicate Activates(row: Row, req: UpdateRequest) {
    req.status == Some("active") && row.status != "active"
  }

  function UpdatedRow(row: Row, req: UpdateRequest, now: int): Row {
    var asked := row.(status := GetOr(req.status, row.status), mode := GetOr(req.mode, row.mode),
                      duration := GetOr(req.duration, row.duration));
    var timed :=
      if asked.mode != "timer" then asked.(startedAt := None, endsAt := None)
      else if asked.status == "active" && (Activates(row, req) || (req.mode.Some? && asked.endsAt.None?))
      then RoundWindow(asked, now)
      else asked;
    Prepare(timed)
  }

  /**
   The write of an update request, computed from the row `seen` that the request has read:
   it writes every column back, and activating or naming a mode while active re-syncs the matchups.
   */
  function WriteUpdate(st: State, seen: Row, req: UpdateRequest, now: int): State {
    var row := UpdatedRow(seen, req, now);
    var synced := Activates(seen, req) || (req.mode.Some? && row.status == "active");
    st.(row := row, rounds := if synced then SyncRounds(st.rounds, row) else st.rounds)
  }

  /** An update request whose read and write nothing comes between. */
  function Update(st: State, req: UpdateRequest, now: int): State {
    WriteUpdate(st, st.row, req, now)
  }

  // ---- runs ----

  datatype Step =
    | Vote(round: int, i: int, j: int, votes: nat)
    | OverrideWinner(round: int, i: int, winner: nat)
    | CompleteMatchup(round: int, i: int)
    | ReadyUpMatchup(round: int, i: int)
    | ResolveTieAndAdvance(round: int, i: int, winner: nat, now: int)
    | UpdateBracket(req: UpdateRequest, now: int)
    | AdvanceBracket(now: int)

  /** Votes move an item's merged count to any new value. */
  function CastVotes(st: State, round: int, i: int, j: int, votes: nat): State {
    if OnBoard(st, round, i) && 0 <= j < |st.rounds[round - 1][i].items|
    then
      var m := st.rounds[round - 1][i];
      WithMatchup(st, round, i, m.(items := m.items[j := m.items[j].(votes := votes)]))
    else st
  }

  function TakeStep(st: State, step: Step): State {
    match step
    case Vote(round, i, j, votes) => CastVotes(st, round, i, j, votes)
    case OverrideWinner(round, i, winner) => Override(st, round, i, winner)
    case CompleteMatchup(round, i) => Complete(st, round, i)
    case ReadyUpMatchup(round, i) => ReadyUp(st, round, i)
    case ResolveTieAndAdvance(round, i, winner, now) => ResolveTie(st, round, i, winner, now)
    case UpdateBracket(req, now) => Update(st, req, now)
    case AdvanceBracket(now) => AdvanceOrStay(st, now)
  }

  function Run(st: State, steps: seq<Step>): State {
    if steps == [] then st else TakeStep(Run(st, steps[..|steps| - 1]), steps[|steps| - 1])
  }
}

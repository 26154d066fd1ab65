# Matchup: verified models of the tournament, voting and session machinery

A Dafny model of the parts of the Matchup API that keep state consistent: the bracket engine, the
vote ledger, refresh-token families, the job queue and rate limiter, the ETag writer, and the
follow lists. `dafny verify dfyconfig.toml` checks everything.

## How it is organised

| files | contents |
|---|---|
| `SeedOrder`, `SeedLabels`, `SeedNames` | the recursive seed order, the seed labels that are printed, stripped and parsed, and what becomes of a name |
| `Winner`, `Dedupe` | choosing a matchup's winner, merging duplicate items |
| `Bracket`, `BracketLayout` | the bracket state and its steps as functions, and laying out the rounds of a new bracket |
| `BracketTree`, `BracketAdvance`, `BracketRuns` | the tree invariant, what an advance does to it, and all runs |
| `BracketRequests`, `BracketOutcome`, `BracketSchedule`, `BracketIds` | what requests and advances do to the fields: winners, who goes on, times, item ids |
| `BracketRaces` | owner requests whose read and write are separated by an advance |
| `BracketChalk` | runs in which nobody votes: the better seed always goes on |
| `BracketStore` | the row and its matchups updated in place, tied to the step functions |
| `VoteLedger`, `VoteRuns` | vote rows against counters, step by step and in every interleaving |
| `VoteAlone`, `VoteCap` | a request that runs alone, and the free-vote limit |
| `VoteReads` | what a read of column plus buffer shows, also while a flush is half done |
| `VoteMerge`, `VoteStore` | the merge at sign-in, and the handlers and the flush worker on the tables |
| `RefreshTokens` | token families under mint, rotate, revoke, revoke-all and cleanup |
| `JobQueue`, `RateLimit` | check-then-act protocols on a shared store, with their true bounds |
| `JobWorker` | what one worker makes of the queue |
| `EtagWriter` | a buffering response writer against direct writing |
| `FollowPaging`, `FollowCounts` | keyset pages, and counters against edges |

Each component has a state (a datatype), step functions on it, and lemmas about all runs of the
steps. Where the source updates fields or rows, a class holds the same fields and each of its
methods ensures the new state that the step function gives. Loops of the source are loops here,
with the specification function of the prefix as invariant.

Results that turned out narrower than one might expect, each with its exact condition:

- Round one has slots for every entry only when the size is a power of two
  (`SeedOrder.RoundOneShowsAllIff`); nothing in the source checks the size.
- An update request writes the whole row back that it has read. When an advance comes in between,
  the round is set back, every later advance fails as "already populated", and nothing but another
  stale write can repair it (`BracketRaces.LateUpdateKeepsTreeIff`, `BracketRaces.StaleUpdateError`,
  `BracketRaces.StuckForever`). The other owner requests have the same gap between check and
  write; `BracketRaces.LandKeepsTreeIff` says which late writes do no harm.
- A second timer advance is refused unless it meets the last round
  (`BracketRuns.DuplicateTimerAdvance`).
- Two requests of one voter in flight together can leave a counter wrong
  (`VoteLedger.CommitBalancesIff`, `VoteRuns.DoubleSubmitDrifts`).
- Between the swap and the update of a flush the amount in the worker's hands is in neither the
  column nor the buffer. A read then shows too few votes or too many, and a complete or an advance
  can choose the wrong winner (`VoteReads.MergedCountIff`, `VoteReads.HalfFlushPicksWrongWinner`).
- The free-vote limit can be exceeded in two ways: by requests that overlap between count and
  insert, and by picks that replace skips. `VoteCap.RunKeepsLimitIff` says exactly which
  commits do it, `VoteCap.EveryRunBoundsUse` is the bound that holds, and the runs of
  `VoteCap.RaceExceedsLimit` and `VoteCap.SkipsEvadeLimit` reach it.
- Merging votes while their counter changes are still in the buffer can leave a counter wrong
  (`VoteMerge.MergeKeepsDriftIff`).
- The queue can exceed its cap by the number of producers less one (`JobQueue.OvershootIsReached`),
  and a rate-limit window can admit twice its budget (`RateLimit.ClosedBoundIsReached`).
- Flushing an unstreamed response loses its status (`EtagWriter.ResponseRefinesDirectIff`), and a
  matching tag turns any buffered response, also an error, into a 304.
- Removing an account leaves the counters of another user wrong unless the two follow each other or
  neither does: the counts of followers and followed are lowered the wrong way round
  (`FollowCounts.RemovalKeepsCountedIff`).
- Logging out with an already used token does not end its session
  (`RefreshTokens.LogoutEndsFamilyIff`).

Where the code and its comments disagree the model follows the code: the seed order for 16 in the
comment at api/controllers/bracket_logic.go:296-297 is not what the recursion gives, and the
genuine ties that should fail an advance according to api/controllers/bracket_logic.go:415-417 do
not occur, as the labels of two contenders always differ in seed. Merging the buffer does not keep
an in-progress flush from picking the wrong winner, as api/controllers/bracket_logic.go:384-391 says
it does.

## Assumptions

- Database ids are positive and unique; fresh ids, tokens and family ids are new. Hashes, base64
  and JSON encodings are taken as injective, so a row is named by its token and a cursor by its pair.
- A transaction or a single statement is one step. An owner's bracket request is one step in
  `BracketRuns`, and a check followed by a separate write in `BracketRaces`. Vote and queue commands
  interleave one by one; a rate-limit check is one step.
- Each request reads the clock once; the readings are parameters and need not increase, except in
  `RateLimit`.
- Counter and list commands on Redis succeed. There is one flush worker, which finishes a counter
  before it takes it again; its database updates may fail.
- A bracket's size fits a 64-bit word, as the machine integer that stores it does.

## Model

| member | source | states |
|---|---|---|
| `BracketRuns.EveryRunKeepsTree` | api/controllers/bracket_logic.go:357-552 | Every run of votes, override, complete/reopen, ready-up, resolve-tie, update and advance steps, each taken as a whole, from a generated bracket of 2^k entries keeps the tree: earlier rounds completed with own winners, two items per current matchup, later rounds empty, matchup i of a round fed by winners 2i and 2i+1; the current round is 1 plus the number of successful advances |
| `BracketRuns.RoundsFollowSuccesses` | api/controllers/bracket_logic.go:459-544 | Each successful advance moves exactly one round, and success number log2(size) completes the bracket |
| `BracketRuns.StepKeepsTree` | api/controllers/bracket_logic.go:357-552 | One step of any kind keeps the tree; a successful advance moves exactly one round or completes the bracket, every other step stays in the round |
| `BracketRuns.AdvanceOutcome` | api/controllers/bracket_logic.go:394-508 | Wherever the tree holds, so after every run of whole steps, an advance succeeds if and only if the mode or clock decides for it, or it is the last round, or all current matchups are completed; its only error is then an uncompleted matchup. A stale row write does reach "already populated", see BracketRaces.StaleUpdateError |
| `BracketRuns.AdvanceKeepsDecided` | api/controllers/bracket_logic.go:424-450 | An advance never overturns a completed matchup that has a winner |
| `BracketRuns.ChampionIsAnEntry` | api/controllers/bracket_logic.go:459-488 | The champion's label was generated in round one for one of the bracket's seeds |
| `BracketRuns.ReAdvanceChangesOnlyTime` | api/controllers/bracket_logic.go:459-488 | Advancing a completed bracket again changes nothing but the completion time |
| `BracketRuns.TimerAdvanceOpensRound` | api/controllers/bracket_logic.go:530-540 | After a timer advance the new round is open and not expired |
| `BracketRuns.DuplicateTimerAdvance` | api/controllers/bracket_logic.go:452-488 | A second timer advance at the same instant is refused if and only if the first one did not open the last round |
| `BracketRuns.TimerAdvanceTwice` | api/controllers/bracket_logic.go:459-535 | From a new bracket: two timer advances at one instant complete a bracket of four, and the second is refused in any larger one |
| `BracketRaces.LandKeepsTreeIff` | api/controllers/matchup_connect_handler.go:921-1130 | The bare write of any owner request, made on checks of an earlier moment, keeps the tree if and only if it is timely: its round is still current, or it repeats the winner, or ready-up still finds one |
| `BracketRaces.TimelyRunKeepsTree` | api/controllers/bracket_connect_handler.go:632-690 | Runs that mix whole steps with such separate writes keep the tree as long as every write is timely when it lands |
| `BracketRaces.LateUpdateKeepsTreeIff` | api/controllers/bracket_connect_handler.go:631-690 | The row write of an update, which writes current_round back, keeps the tree if and only if the round it has read is still the current one |
| `BracketRaces.StaleUpdateError` | api/controllers/bracket_logic.go:452-457 | After an update read before an advance and written after it, every advance fails with the "already populated" error |
| `BracketRaces.StuckForever` | api/controllers/bracket_logic.go:452-457 | No run of whole steps ever moves such a bracket again |
| `BracketRaces.LateReopenKeepsTreeIff` | api/controllers/matchup_connect_handler.go:1014-1044 | A reopen keeps the tree if and only if its round is still current |
| `BracketRaces.LateReadyKeepsTreeIff` | api/controllers/matchup_connect_handler.go:1105-1130 | A ready-up keeps the tree if and only if the matchup still has a winner |
| `BracketRaces.LateStampKeepsTreeIff` | api/controllers/matchup_connect_handler.go:921-962 | A winner write that lands after an advance keeps the tree if and only if the matchup is still in the current round or the write repeats its winner |
| `BracketRaces.StaleTitleEdit` | api/models/Bracket.go:181-201 | From a new bracket: activate, advance, and write a title edit that was read before the advance; the tree is broken, the advance fails as "already populated", and it is refused after any further whole steps |
| `BracketRaces.StaleMatchupWrites` | api/controllers/matchup_connect_handler.go:921-1044 | From a new bracket: a late stamp of the loser and a late reopen both break the tree |
| `BracketRuns.UpdateKeepsTree` | api/controllers/bracket_connect_handler.go:640-688 | Status, mode and duration updates with their re-sync keep the tree when no advance comes between their read and their write; BracketRaces.LateUpdateKeepsTreeIff has the other case |
| `BracketRuns.ResolveTieKeepsTree` | api/controllers/bracket_connect_handler.go:952-982 | Resolving a tie keeps the tree, whether the advance that follows succeeds or is refused |
| `BracketRuns.CompleteKeepsTree` | api/controllers/matchup_connect_handler.go:1014-1064 | Completing or reopening a current matchup keeps the tree |
| `BracketRuns.ReadyUpKeepsTree` | api/controllers/matchup_connect_handler.go:1122-1130 | Ready-up keeps the tree although it looks at no bracket state |
| `BracketRequests.OverrideCrowns` | api/controllers/matchup_connect_handler.go:921-962 | In any state: the named item becomes the winner of the named matchup, which is completed and otherwise as before, and nothing else changes, if the bracket is active, the round is current and the item is one of the matchup; in every other case nothing changes |
| `BracketRequests.CompleteCrownsOrReopens` | api/controllers/matchup_connect_handler.go:1014-1064 | In any state: a completed current matchup loses its winner and is open again; any other is won by who deserves it, or left alone when nobody does; no other matchup changes |
| `BracketRequests.CompleteWinnerDeserves` | api/controllers/matchup_logic.go:38-68 | Complete takes the chosen item if it is one of the matchup, and without a choice the one item with more votes than each other |
| `BracketRequests.ReadyUpCloses` | api/controllers/matchup_connect_handler.go:1122-1130 | A ready-up completes a matchup that has a winner, keeps that winner, and changes nothing else |
| `BracketOutcome.AdvanceJudges` | api/controllers/bracket_logic.go:424-450 | In the round that an advance leaves, decided matchups are as before, and every other one is won by the item with more votes or, on equal votes, the lower seed |
| `BracketOutcome.WinnerGoesOn` | api/controllers/bracket_logic.go:490-528 | The item that won a matchup stands by its label in matchup i / 2 of the next round, on the side i % 2 |
| `BracketOutcome.NextRoundIsFresh` | api/controllers/bracket_logic.go:510-528 | The items of the next round start without votes and a winner, under the next ids in order |
| `BracketIds.EveryRunKeepsIdsBelow` | api/controllers/bracket_logic.go:162-552 | In every run all item ids are below the counter, so the ids of a next round are always new |
| `BracketOutcome.WinnerTextSendsOn` | api/models/Matchup.go:332-358 | The label sent on is that of the chosen winner among the items, or without one that of the item with more votes of exactly two; otherwise there is none |
| `BracketOutcome.ResolveTieCrowns` | api/controllers/bracket_connect_handler.go:952-982 | Resolving a tie makes the named item the winner of the matchup, which the advance that follows never overturns |
| `BracketOutcome.EveryEntryStands` | api/controllers/bracket_logic.go:205-248 | Entry number s of a new bracket stands, under the label of seed s, at the slot where the seed order has s; seeds without an entry have a label without a name |
| `BracketSchedule.AdvanceSchedules` | api/controllers/bracket_logic.go:27-79 | An advance to a further round closes the earlier rounds with their times kept, opens that round from now on for the stored duration, or a day without one, in timer mode and without times in any other, and keeps later rounds as drafts without times |
| `BracketSchedule.WindowEnds` | api/controllers/bracket_logic.go:394-420 | In timer mode the opened round can be advanced automatically exactly from now plus its duration on |
| `BracketSchedule.AdvanceKeepsSettings` | api/controllers/bracket_logic.go:530-540 | Such an advance keeps mode, status and completion time, and the duration if there is one |
| `BracketSchedule.ActivationSchedules` | api/controllers/bracket_connect_handler.go:640-688 | Activating a bracket schedules all its rounds in the same way, with the requested mode and duration |
| `BracketSchedule.ModeChangeSchedules` | api/controllers/bracket_connect_handler.go:660-688 | Naming the mode of an active bracket re-syncs it: a timer without a window gets one, a running window stays, any other mode ends it |
| `BracketSchedule.OtherUpdatesKeepMatchups` | api/controllers/bracket_connect_handler.go:660-688 | Every other update leaves all matchups alone |
| `BracketSchedule.UpdateTakesOver` | api/controllers/bracket_connect_handler.go:642-658 | Requested proper values are stored as they are, values not requested stay, and the round and completion time are never edited |
| `BracketSchedule.UpdateFallsBack` | api/models/Bracket.go:57-85 | A blank mode becomes manual, an empty status draft, round zero the first, and a negative duration zero |
| `BracketSchedule.UpdateRestoresOrder` | api/models/Bracket.go:57-85 | After any update the row is in order: proper values, and a window only in timer mode |
| `BracketSchedule.EmptyUpdateChangesNothing` | api/controllers/bracket_connect_handler.go:640-688 | An update that asks for nothing changes nothing in a row that is in order |
| `BracketTree.GeneratedIsTree` | api/controllers/bracket_logic.go:205-248 | The generated bracket satisfies the tree invariant |
| `BracketTree.SyncKeepsTree` | api/controllers/bracket_logic.go:45-79 | Re-syncing statuses keeps the tree, also after the round number moved |
| `BracketAdvance.ItemsFromSubtree` | api/controllers/bracket_logic.go:490-528 | Every item of a populated matchup was generated inside its own half of the subtree below it |
| `BracketAdvance.ContendersHaveDistinctSeeds` | api/controllers/bracket_logic.go:490-528 | Two contenders always carry labels with two different parsed seeds, so the seed tie-break always decides |
| `BracketAdvance.CurrentIsDecidable` | api/controllers/matchup_logic.go:99-135 | A current matchup can always be decided, and deciding it keeps its labels and any winner it has |
| `BracketAdvance.FinalAdvance` | api/controllers/bracket_logic.go:459-488 | The last round completes the bracket in every mode and at every time, changing only that round and the row |
| `BracketAdvance.EarlierAdvance` | api/controllers/bracket_logic.go:394-544 | An earlier round advances if and only if it may, to the next round with its window set |
| `BracketAdvance.AdvanceOneKeepsTree` | api/controllers/bracket_logic.go:490-544 | Filling the next round with the winners of the resolved one keeps the tree |
| `BracketAdvance.CollectWinnersNeedsCompleted` | api/controllers/bracket_logic.go:490-501 | The winners of a round can be collected if and only if all its matchups are completed |
| `BracketAdvance.DedupeAllChangesNothing` | api/controllers/bracket_logic.go:399-404 | In a round of two-item matchups the dedupe pass of an advance changes nothing |
| `BracketChalk.UndisturbedSeeds` | api/controllers/bracket_logic.go:211-248 | Without votes, overrides and resolved ties, the parsed seeds of every populated round, read in order, are the seed order of the remaining size, after any run |
| `BracketChalk.UndisturbedChampion` | api/controllers/bracket_logic.go:459-528 | The champion of such a bracket is the entry of seed 1 |
| `BracketChalk.ChalkRun` | api/controllers/bracket_logic.go:357-552 | The whole-run invariant behind the two results above |
| `BracketStore.BracketStore.Advance` | api/controllers/bracket_logic.go:357-552 | The transaction makes exactly the changes of the advance step, or none and returns its error |
| `BracketStore.BracketStore.SetBracketRoundWindow` | api/controllers/bracket_logic.go:27-39 | The round window for timer mode, with the default duration, and no window otherwise |
| `BracketStore.BracketStore.SyncBracketMatchups` | api/controllers/bracket_logic.go:45-79 | Statuses and times of all matchups follow the current round |
| `BracketStore.BracketStore.StampMatchupWinner` | api/controllers/winner_helpers.go:50-73 | Winner and status of one matchup, nothing else |
| `BracketStore.BracketStore.OverrideMatchupWinner` | api/controllers/matchup_connect_handler.go:921-962 | The override step; the named item is the winner of the matchup, or nothing changes |
| `BracketStore.BracketStore.CompleteMatchup` | api/controllers/matchup_connect_handler.go:1014-1064 | The complete/reopen step, rejected on a tie |
| `BracketStore.BracketStore.ReadyUpMatchup` | api/controllers/matchup_connect_handler.go:1122-1130 | The ready-up step |
| `BracketStore.BracketStore.ResolveTieAndAdvance` | api/controllers/bracket_connect_handler.go:952-982 | The resolve-tie step: the winner write stays when the advance is refused |
| `BracketStore.BracketStore.UpdateBracket` | api/controllers/bracket_connect_handler.go:640-688 | The write of an update from the row it has read: row edits, window, defaults, and re-sync, also when the row has changed since |
| `BracketStore.GroupMatchupsByRound` | api/controllers/bracket_logic.go:84-92 | Each round lists exactly its matchups in query order; matchups without a round are skipped |
| `BracketStore.GroupingInvertsFlattening` | api/models/Matchup.go:319-330 | Grouping the flat rows of a bracket gives its rounds back |
| `BracketStore.BracketStore.GenerateFullBracket` | api/controllers/bracket_logic.go:162-248 | For any size: laid out if and only if the size is below 2, a power of two, or one more, and otherwise cut short at the index out of range; for a power of two the stored state is the generated one of the step model |
| `BracketLayout.GenerateRounds` | api/controllers/bracket_logic.go:163-248 | For any size: an index out of range if and only if the seed order is too short for round one, with the matchups before it kept; otherwise round one carries the labelled entries of its slots and round r has size / 2^r empty matchups |
| `BracketLayout.LaidOutIsGenerated` | api/controllers/bracket_logic.go:205-248 | For a power of two the layout is the one that the whole-run results start from |
| `BracketLayout.FirstRoundMatchups` | api/controllers/bracket_logic.go:225-242 | The round-one loop places positions 2i and 2i+1 of the seed order until the index is out of range |
| `BracketStore.DedupeRound` | api/controllers/bracket_logic.go:399-404 | The dedupe loop stops at the first error |
| `BracketStore.FinalizeRound` | api/controllers/bracket_logic.go:426-449 | The loop that decides every undecided matchup, or stops |
| `BracketStore.CollectRoundWinners` | api/controllers/bracket_logic.go:490-501 | The winner loop, with its errors |
| `BracketStore.PopulateRound` | api/controllers/bracket_logic.go:510-528 | The winner cursor gives matchup i winners 2i and 2i+1 as fresh items without votes |
| `SeedOrder.ComputeSeedOrder` | api/controllers/bracket_logic.go:312-322 | The recursive loop computes the seed order for every n |
| `SeedOrder.SlotOfSeed` | api/controllers/bracket_logic.go:312-322 | Every seed 1..n has a slot: the order is onto |
| `SeedOrder.SeedOfSlot` | api/controllers/bracket_logic.go:312-322 | No seed has two slots: with the row above, the order is a permutation |
| `SeedOrder.OrderIsSeedAt` | api/controllers/bracket_logic.go:312-322 | The list for n = 2^k, slot by slot, is the closed form by halving |
| `SeedOrder.OrderShowsPair` | api/controllers/bracket_logic.go:312-322 | Adjacent slots of the list sum to n + 1, and the first of them is the list for n/2 |
| `SeedOrder.TopSeedsHeadBlocks` | api/controllers/bracket_logic.go:312-322 | For every j each aligned block of n/2^j slots contains exactly one of the seeds 1..2^j, at its head |
| `SeedOrder.TopSeedsApart` | api/controllers/bracket_logic.go:312-322 | Two of the top 2^j seeds never share such a block, so they cannot meet before 2^j remain |
| `SeedOrder.RoundOneSlotsExist` | api/controllers/bracket_logic.go:211-230 | For any n >= 2 the order is long enough for round one if and only if n is a power of two or one more |
| `SeedOrder.RoundOneShowsAllIff` | api/controllers/bracket_logic.go:211-242 | Round one shows every seed 1..n if and only if n is a power of two; one more drops the last entry |
| `SeedOrder.SixEntriesDoNotFit` | api/controllers/bracket_logic.go:312-322 | For six entries the order is [1,6,3,4] |
| `SeedLabels.StripSeedPrefixLoop` | api/controllers/bracket_logic.go:107-142 | The stripping loop terminates and computes the stripped name |
| `SeedLabels.StripIsIdempotent` | api/controllers/bracket_logic.go:107-142 | Stripping twice is stripping once, and no prefix is left |
| `SeedLabels.StripOfFormat` | api/controllers/bracket_logic.go:95-105 | Stripping a formatted label gives the stripped name |
| `SeedLabels.RelabelAbsorbs` | api/controllers/bracket_logic.go:95-105 | Formatting an already formatted label with another seed forgets the earlier seed |
| `SeedNames.NameSurvivesIff` | api/controllers/bracket_logic.go:95-105 | A label is "Seed N - " and the whole trimmed name if and only if there is a name and it does not start with a seed prefix, the word in any case and a numeral; without a name it is "Seed N" |
| `SeedNames.StripKeepsIff` | api/controllers/bracket_logic.go:107-142 | The stripped name is always an end of the trimmed text, and all of it if and only if that has no seed prefix; the word without digits is none |
| `SeedNames.PrefixIsCut` | api/controllers/bracket_logic.go:116-139 | A prefix is cut for any numeral, with a hyphen, a colon or no mark after it and any blanks around |
| `SeedNames.EarlierLabelIsReplaced` | api/controllers/bracket_logic.go:95-142 | Formatting a name that carries such a prefix gives the label of the bare name |
| `SeedNames.TrimSpaceIsCore` | api/controllers/bracket_logic.go:96-112 | Trimming takes white space off both ends and nothing else |
| `SeedLabels.ParseSeedLoop` | api/controllers/matchup_logic.go:85-97 | The parsing loop, with 64-bit wrap-around, computes the parsed seed |
| `SeedLabels.ParseOfFormat` | api/controllers/matchup_logic.go:85-97 | Parsing a formatted label returns its seed, whatever the name contains, for seeds below 2^63 |
| `SeedLabels.ParseNeedsDigit` | api/controllers/matchup_logic.go:85-97 | A label has a seed if and only if it has a digit |
| `Winner.ApplyVoteDeltas` | api/controllers/batch_queries.go:144-163 | Pending deltas are added to the items in place, floored at zero |
| `Winner.DetermineMatchupWinner` | api/controllers/matchup_logic.go:38-68 | The counting loop implements the complete rule |
| `Winner.CompleteWinnerMeaning` | api/controllers/matchup_logic.go:38-68 | Complete picks the strict leader, and fails if and only if two items share the top |
| `Winner.DetermineMatchupWinnerByVotesOrSeed` | api/controllers/matchup_logic.go:99-135 | The two loops implement the advance rule |
| `Winner.DetermineMatchupWinnerByVotes` | api/controllers/matchup_logic.go:70-83 | The first of the items with the most votes |
| `Winner.AdvanceWinnerMeaning` | api/controllers/matchup_logic.go:99-135 | The winner has the most votes and, among equals, the lowest parsed seed; it fails if and only if the tied items have no seed |
| `Winner.AdvanceRefinesComplete` | api/controllers/matchup_logic.go:38-135 | Wherever complete succeeds without a chosen winner, advance agrees with it |
| `Winner.LoadOrderIrrelevant` | api/models/Matchup.go:427-441 | The order in which two seeded items are loaded cannot change the winner |
| `Dedupe.DedupeBracketMatchupItems` | api/controllers/matchup_logic.go:139-200 | The bucket loops, row updates and deletions compute the deduped items |
| `Dedupe.DedupeFailsIff` | api/controllers/matchup_logic.go:173-175 | Deduping fails if and only if more than two items carry three different keys |
| `Dedupe.DedupeLeavesTwo` | api/controllers/matchup_logic.go:139-200 | At most two items are left, with distinct keys if and only if more than two went in or none shared a key |
| `Dedupe.DedupeConservesVotes` | api/controllers/matchup_logic.go:150-196 | The total of votes is conserved |
| `Dedupe.DedupeKeepsWinner` | api/controllers/matchup_logic.go:150-171 | A chosen winner among the items is kept |
| `Dedupe.DedupeMerges` | api/controllers/matchup_logic.go:150-196 | Among more than two items, what is left is one row for each key in the order of the ids, with all votes of the rows of its key and the id and text of the chosen winner among them, or else of the first |
| `Dedupe.SameKeyIff` | api/controllers/matchup_logic.go:150-156 | Two items share a bucket if and only if their trimmed texts agree; blank ones only by their id, or with a text that spells it |
| `Dedupe.PairIsNotDeduped` | api/controllers/matchup_logic.go:140-142 | Two items with one label are left as they are |
| `VoteRuns.EveryRunBalances` | api/controllers/vote_connect_handler.go:207-374 | In every interleaving of vote, skip and flush steps with at most one request in flight per voter and matchup, column + buffer + the worker's amount + owed changes equals the pick rows of each item, and the floor of the worker's update is never needed (reads are the subject of VoteReads) |
| `VoteLedger.CommitBalancesIff` | api/controllers/vote_connect_handler.go:253-334 | A commit keeps the balance of every item if and only if the row it replaces still has the pick it looked up |
| `VoteLedger.OtherStepsKeepDriftIff` | api/jobs/handlers/flush_votes.go:118-149 | Lookups, counts, refusals, counter changes, the worker's swap, its update and its put-back keep the drift of an item, in any state, if and only if the floor of the update does not cut the amount |
| `VoteAlone.AloneSettles` | api/controllers/vote_connect_handler.go:207-374 | The steps of a request without interference move its row and one vote with it, or change nothing for a new pick at the free limit |
| `VoteAlone.SettledMovesOneVote` | api/controllers/vote_connect_handler.go:253-374 | Then the ballot says what was asked for, no other ballot has changed, and pick count and buffer have both moved by one vote from the old pick to the new |
| `VoteRuns.StepKeepsTidy` | api/controllers/vote_connect_handler.go:207-334 | With one request per voter and matchup, each request in flight agrees with its row |
| `VoteRuns.AppliedIsNatural` | api/controllers/batch_queries.go:144-163 | What has reached the counters of an item is never negative |
| `VoteRuns.DoubleSubmitDrifts` | api/controllers/vote_connect_handler.go:230-281 | From an empty ledger: after a skip, two requests of one voter in flight together leave an item one vote too many |
| `VoteRuns.RunKeepsDrift` | api/controllers/vote_connect_handler.go:207-374 | From any tidy state without a shortfall, drifted or not, an orderly continuation leaves the drift of an item as it was and never uses the worker's floor |
| `VoteCap.EveryRunBoundsUse` | api/controllers/vote_connect_handler.go:283-330 | In every interleaving the picks of a device, with its requests between count and insert, stay within the limit plus one less than the most such requests it had at once plus its replacements of skips at the limit |
| `VoteCap.LimitHolds` | api/controllers/vote_connect_handler.go:283-306 | Without overlapping counts and replaced skips the limit holds |
| `VoteCap.StepKeepsLimitIff` | api/controllers/vote_connect_handler.go:230-330 | From within the limit a step leaves it if and only if it is a commit of the device that adds a pick with the limit used up: a new row, or a replaced skip |
| `VoteCap.RunKeepsLimitIff` | api/controllers/vote_connect_handler.go:230-330 | A run stays within the limit throughout if and only if none of its commits is of that kind |
| `VoteCap.RaceExceedsLimit` | api/controllers/vote_connect_handler.go:293-325 | For every number of overlapping requests a run in which at most that many overlap and no skip is replaced reaches the limit plus that number less one, the bound above |
| `VoteCap.SkipsEvadeLimit` | api/controllers/vote_connect_handler.go:247-281 | For every n a run with one request at a time and no count passed reaches n picks, with one replaced skip for each pick beyond the limit, the bound above |
| `VoteReads.MergedCountIff` | api/jobs/handlers/flush_votes.go:118-139 | In every orderly run a merged count is the pick rows less what is owed if and only if the worker has nothing of the item in hand, or has votes in hand and no counted row is left; the floor of the read is unused if and only if the worker's amount is at most the counted rows |
| `VoteReads.WinnerHasMostPicks` | api/controllers/batch_queries.go:192-230 | With nothing owed and nothing in the worker's hands between its swap and its update, the winner of complete and of advance has the most pick rows, and complete reports a tie if and only if two items share the most |
| `VoteReads.HalfFlushPicksWrongWinner` | api/controllers/bracket_logic.go:384-391 | From an empty ledger: two votes for item 1, the worker's swap, a vote for item 2; nothing is in flight or owed, and complete and advance both choose item 2 |
| `VoteReads.HalfFlushUsesFloor` | api/controllers/batch_queries.go:144-163 | From an empty ledger: a vote, the worker's swap, and the voter's change of mind leave column plus buffer at -1 |
| `VoteStore.ReconcileRestoresIff` | api/controllers/vote_reconcile.go:34-51 | From any tidy state, however drifted: after a reconcile an item is balanced in all orderly continuations if and only if what was pending for it cancels out and the worker's amount takes no more votes than there are pick rows |
| `VoteStore.ReconcileRestoresFloor` | api/controllers/vote_reconcile.go:34-51 | With nothing pending, a reconcile also makes every later floor of the worker's update unnecessary |
| `VoteStore.ReconcileIsIdempotent` | api/controllers/vote_reconcile.go:23-26 | A second pass finds nothing to fix |
| `VoteStore.LimitHoldsAloneIff` | api/controllers/vote_connect_handler.go:243-306 | A pick that runs alone keeps a device within the free limit except when it replaces a skip with the limit used up; overlapping requests are the subject of VoteCap |
| `VoteReads.LoadVoteDeltas` | api/controllers/batch_queries.go:105-135 | Exactly the non-zero pending changes of the given items |
| `VoteStore.VoteStore.VoteItem` | api/controllers/vote_connect_handler.go:207-374 | Row and counters move as in the undisturbed request; which outcomes leave everything unchanged |
| `VoteStore.VoteStore.SkipMatchup` | api/controllers/vote_connect_handler.go:505-585 | The same for skips |
| `VoteStore.VoteStore.FlushItem` | api/jobs/handlers/flush_votes.go:118-149 | The swap followed by the update, by nothing for a zero amount, or by the put-back when the update fails |
| `VoteStore.VoteStore.FlushVotesOnce` | api/jobs/handlers/flush_votes.go:80-162 | One pass over the scanned counters, a key possibly twice, as the composition of these turns |
| `VoteStore.FlushPassKeepsMerged` | api/jobs/handlers/flush_votes.go:80-162 | An undisturbed pass keeps the merged count of every item, with or without failing updates, and empties every scanned counter whose update succeeds |
| `VoteStore.VoteStore.MergeDeviceVotesToUser` | api/controllers/anonymous_vote_merge.go:13-69 | The transaction makes the changes of the merge, or none when an item is missing |
| `VoteStore.VoteStore.ReconcileVoteCounts` | api/controllers/vote_reconcile.go:34-74 | The columns become the pick counts, and the result is the number of columns that differed |
| `VoteMerge.MergeMovesVotes` | api/controllers/anonymous_vote_merge.go:28-66 | After a merge no row is left under the device, the user has one row on every matchup either had, earlier votes of the user and all other rows are unchanged |
| `VoteMerge.MergeKeepsDriftIff` | api/controllers/anonymous_vote_merge.go:38-55 | A merge keeps the balance of an item if and only if its column covers the dropped votes |
| `VoteMerge.ShortColumnDrifts` | api/controllers/anonymous_vote_merge.go:48-53 | From an empty ledger: a device and a user vote for an item, and a merge while both votes are still in the buffer leaves it exactly one vote too many |
| `VoteMerge.MergeKeepsCounts` | api/controllers/anonymous_vote_merge.go:13-69 | With nothing pending, the columns still equal the pick rows after a merge |
| `VoteMerge.MergeFailsIff` | api/controllers/anonymous_vote_merge.go:38-46 | A merge fails if and only if a dropped vote is for an item that is gone |
| `RefreshTokens.EveryRunIsSound` | api/auth/refresh.go:40-204 | In every run each family has one user and at most one unused row, no row has two children, and parent links name used rows of the same family |
| `RefreshTokens.RotatesAtMostOnce` | api/auth/refresh.go:86-168 | No token is exchanged successfully twice in any run |
| `RefreshTokens.ReuseEndsFamily` | api/auth/refresh.go:108-127 | Presenting a used token revokes its whole family, also when it is expired or revoked, and no rotation of the family succeeds after any continuation |
| `RefreshTokens.EndedForever` | api/auth/refresh.go:108-168 | A family without an unused, unrevoked row stays that way |
| `RefreshTokens.ExchangeHandsOver` | api/auth/refresh.go:136-168 | After a rotation the old token reads as reused and the new one, of the same user, works for exactly one lifetime |
| `RefreshTokens.LogoutEndsFamilyIff` | api/auth/refresh.go:175-187 | Revoking one token ends its family if and only if it was the unused one or the family had ended |
| `RefreshTokens.LogoutWithUsedToken` | api/auth/refresh.go:175-187 | Mint, rotate, revoke the old token: the new one still rotates |
| `RefreshTokens.LogoutAllEndsSessions` | api/auth/refresh.go:192-204 | After revoking all tokens of a user none of their families ever rotates again |
| `RefreshTokens.OthersStayLoggedIn` | api/auth/refresh.go:108-204 | Logging a user out everywhere leaves the rows of all other users and the answers to their tokens as they were, and a reuse those of all other families |
| `RefreshTokens.StepTouchesIff` | api/auth/refresh.go:40-204 | A step changes a row if and only if it concerns its token: it exchanges it, revokes it, its family or its user, or finds it stale |
| `RefreshTokens.UnconcernedTokenStays` | api/auth/refresh.go:86-204 | After any run of steps that do not concern a token it is answered as before |
| `RefreshTokens.MintWorks` | api/auth/refresh.go:40-59 | A minted token works for its user for exactly 30 days |
| `RefreshTokens.RevocationLasts` | api/scheduler/scheduler.go:556-560 | A token that a logout, a logout everywhere or a reuse has revoked is answered so, also after its expiry, until a cleanup more than 30 days later or more than a week after its expiry |
| `RefreshTokens.ReuseIsSeenUntilCleanup` | api/scheduler/scheduler.go:556-560 | A used token stays recognisable until a cleanup finds its row stale, and no longer |
| `RefreshTokens.CleanupKeepsSound` | api/scheduler/scheduler.go:556-560 | Cleanup, with parent links set to null, keeps the family shape |
| `RefreshTokens.TokenStore.MintRefreshToken` | api/auth/refresh.go:40-59 | A fresh token in a fresh family |
| `RefreshTokens.TokenStore.RotateRefreshToken` | api/auth/refresh.go:86-168 | The guards in order, and the exact new table for each verdict |
| `RefreshTokens.TokenStore.RevokeRefreshToken` | api/auth/refresh.go:175-187 | At most the one unrevoked row is stamped |
| `RefreshTokens.TokenStore.RevokeAllUserTokens` | api/auth/refresh.go:192-204 | The user's unrevoked rows are stamped and counted |
| `RefreshTokens.TokenStore.CleanupRefreshTokens` | api/scheduler/scheduler.go:552-568 | Stale rows are deleted and links to them cleared |
| `JobQueue.EveryRunKeepsQueue` | api/jobs/queue.go:59-116 | In every interleaving of producers and workers: payloads leave in enqueue order, each dequeued one is accounted for, the queue stays within 10000 + producers - 1, the dead-letter list holds the newest failures and exceeds 1000 only by workers that have not trimmed yet |
| `JobQueue.OnePlaceEach` | api/jobs/worker.go:28-58 | Each accepted payload is in exactly one of queue, a worker, done or failed |
| `JobQueue.OvershootIsReached` | api/jobs/queue.go:63-70 | The bound 10000 + producers - 1 is reached by an actual run |
| `JobQueue.DlqOvershootIsReached` | api/jobs/queue.go:77-87 | The dead-letter bound 1000 + workers is reached by an actual run |
| `JobQueue.RedisQueue.Enqueue` | api/jobs/queue.go:59-71 | Refused if and only if the list is full; the new state is the check step followed by the push step, among any other producers and workers |
| `JobQueue.RedisQueue.Dequeue` | api/jobs/queue.go:96-116 | The pop step of an idle worker: the oldest payload, or nothing when the list is empty |
| `JobQueue.RedisQueue.SendToDLQ` | api/jobs/queue.go:77-87 | The fail step followed by the trim step |
| `JobQueue.RedisQueue.RunWorker` | api/jobs/worker.go:24-59 | The given number of turns, each a pop followed by success, or by fail and trim |
| `JobWorker.TurnsWorkOff` | api/jobs/worker.go:28-58 | The turns of a worker alone take the oldest payloads in enqueue order; those that the handler accepts are logged as done and the others as failed, each in that order, and the failures lead the dead-letter list, newest first and cut at its cap |
| `JobWorker.QueueDelivers` | api/jobs/worker.go:28-58 | Payloads that fit the queue and are then worked off come out in the order sent, sorted in that way, and leave the queue empty |
| `RateLimit.WindowBound` | api/middlewares/rate_limit.go:37-56 | At most 2 * budget - 1 requests are admitted in any interval shorter than the window and 2 * budget in one of its exact length |
| `RateLimit.LifeAdmitsBudget` | api/middlewares/rate_limit.go:37-56 | A key lifetime admits its first `budget` requests and no other |
| `RateLimit.ClosedBoundIsReached` | api/middlewares/rate_limit.go:37-56 | 2 * budget is reached |
| `RateLimit.OpenBoundIsReached` | api/middlewares/rate_limit.go:37-56 | 2 * budget - 1 is reached |
| `RateLimit.RateLimiter.CheckUserRateLimit` | api/middlewares/rate_limit.go:37-56 | One increment decides; user 0 is never limited; other keys are untouched |
| `RateLimit.RateLimiter.CheckIPRateLimit` | api/middlewares/rate_limit.go:78-96 | The same for a trimmed address; an empty one is never limited |
| `EtagWriter.ResponseSends` | api/middlewares/etag.go:28-79 | For all sequences of header, write, flush and content-type calls: a matching tag turns an unflushed, unstreamed response into a bare 304; any other response carries all written bytes under the first status, or under 200 when an unstreamed response is flushed |
| `EtagWriter.ResponseRefinesDirectIff` | api/middlewares/etag.go:116-173 | Any response that is not such a 304 equals direct writing if and only if no status is lost (by a flush of an unstreamed response, or an informational first code), or the first final code of the calls is 200 or there is none |
| `EtagWriter.DirectStatus` | api/middlewares/etag.go:116-129 | Direct writing sends the first final code of the calls, or 200 at the first write or flush |
| `EtagWriter.FlushedNotFound` | api/middlewares/etag.go:147-164 | A flushed 404 reaches the client as a 200 |
| `EtagWriter.BufferedInvariant` | api/middlewares/etag.go:116-166 | What the writer holds and has sent after any calls, buffered or streaming |
| `EtagWriter.MatchesExactlyListed` | api/middlewares/etag.go:88-103 | An If-None-Match list (section 3.2 of RFC 7232), with any mix of weak and strong tags, any optional white space and empty members, matches a quoted tag if and only if it is listed and has no comma; the split at commas cuts the tags that have one |
| `EtagWriter.MatchesWholeTags` | api/middlewares/etag.go:88-103 | A list of tags without commas matches any tag that a handler may set if and only if it is listed |
| `EtagWriter.StarMatches` | api/middlewares/etag.go:88-94 | The wildcard, with white space around it or not, matches every tag, and an empty header matches none |
| `EtagWriter.StreamingTypes` | api/middlewares/etag.go:175-180 | Content types that start with text/event-stream, application/grpc or multipart/, in any case, are streamed, and no others |
| `EtagWriter.ListedReadsBack` | api/middlewares/etag.go:88-103 | Splitting, trimming and dropping W/ gives the tags of a list of tags without commas back in order |
| `EtagWriter.OwnWeakTagNeverListed` | api/middlewares/etag.go:88-103 | A weak tag set by the handler itself matches no such list, with commas and empty members included |
| `EtagWriter.MatchIfNoneMatch` | api/middlewares/etag.go:88-103 | The candidate loop decides membership |
| `EtagWriter.ServeWithETag` | api/middlewares/etag.go:28-79 | The middleware sends the response characterised above for GET and HEAD, and writes directly for other methods |
| `EtagWriter.EtagResponseWriter.WriteHeader` | api/middlewares/etag.go:116-129 | Only the first call counts, and it decides on streaming |
| `EtagWriter.EtagResponseWriter.Write` | api/middlewares/etag.go:131-142 | Buffer or pass through |
| `EtagWriter.EtagResponseWriter.Flush` | api/middlewares/etag.go:147-164 | Promotion to streaming drains the buffer first |
| `EtagWriter.EtagResponseWriter.EmptyBuffer` | api/middlewares/etag.go:168-173 | The cache-miss path |
| `FollowPaging.StaticWalk` | api/controllers/user_connect_handler.go:665-709 | Following the cursors over an unchanged table shows every row exactly once in (created_at, id) descending order, also when timestamps tie, in PageCount(n, limit) pages |
| `FollowPaging.PageCountIsCeiling` | api/controllers/follow_helpers.go:96-130 | That number of pages is n / limit rounded up |
| `FollowPaging.WalkIsOrdered` | api/controllers/user_connect_handler.go:665-709 | However the table changes between pages, rows come strictly in order, so none is shown twice |
| `FollowPaging.WalkIsNewestFirst` | api/controllers/user_connect_handler.go:665-709 | No row of a walk is younger than one before it, and equal times go by falling id |
| `FollowPaging.WalkShowsStableRows` | api/controllers/user_connect_handler.go:665-709 | A completed walk shows every row that was there for all of its pages |
| `FollowPaging.PageCovers` | api/controllers/user_connect_handler.go:693-702 | A page skips nothing before its next cursor |
| `FollowPaging.BuildFollowListResponse` | api/controllers/follow_helpers.go:96-130 | Entries of the shown rows, and a cursor if and only if a row beyond the limit was fetched |
| `FollowPaging.EntryShowsEdges` | api/controllers/follow_helpers.go:59-121 | The flags of an entry: the viewer follows the listed user, the listed user follows the viewer, or both; without a viewer none |
| `FollowPaging.Limit` | api/controllers/follow_helpers.go:16-22 | A requested limit between 1 and 100 is kept, and any other becomes 20 |
| `FollowCounts.EveryRunCounts` | api/controllers/user_connect_handler.go:544-608 | In every run of follow, unfollow and block both counters of every user equal the numbers of follow edges |
| `FollowCounts.FollowAddsEdge` | api/controllers/user_connect_handler.go:544-564 | An accepted follow adds exactly its own edge, counts it once if it was new, on the two users only, and changes no block or mute |
| `FollowCounts.UnfollowRemovesEdge` | api/controllers/user_connect_handler.go:588-608 | An accepted unfollow removes exactly its own edge |
| `FollowCounts.AcceptedIff` | api/controllers/user_connect_handler.go:526-542 | In every run a request is accepted if and only if it names two different existing users, and otherwise changes nothing |
| `FollowCounts.EdgeTellsLastRequest` | api/controllers/user_connect_handler.go:544-608 | After any run one user follows another if and only if the last request that concerns that edge is a follow |
| `FollowCounts.CountersStayNatural` | api/controllers/user_connect_handler.go:588-608 | Also counters that have drifted never go below zero |
| `FollowCounts.RemovalKeepsCountedIff` | api/controllers/follow_helpers.go:26-57 | When an account is removed, the counters of another user stay right if and only if the two follow each other or neither follows the other |
| `FollowCounts.RemovalLeavesFollower` | api/controllers/follow_helpers.go:26-57 | One follow, then the follower is removed: the other user is left with one follower and no edge |
| `FollowCounts.DropKeepsCounted` | api/controllers/user_connect_handler.go:588-608 | Dropping an edge never uses the floor at zero |
| `FollowCounts.RepeatChangesNothing` | api/controllers/user_connect_handler.go:544-608 | Repeating a request changes nothing |
| `FollowCounts.UnfollowUndoesIff` | api/controllers/user_connect_handler.go:544-608 | Unfollowing takes back a follow if and only if the follow was new |
| `FollowCounts.BlockSevers` | api/controllers/relationship_block_mute.go:29-76 | A block removes both edges between the two users and no other, records itself, and lifts its own mute |
| `FollowCounts.FollowStore.FollowUser` | api/controllers/user_connect_handler.go:544-564 | The follow transaction, also on drifted counters; it keeps counters right that are right |
| `FollowCounts.FollowStore.UnfollowUser` | api/controllers/user_connect_handler.go:588-608 | The unfollow transaction, also on drifted counters; it keeps counters right that are right |
| `FollowCounts.FollowStore.BlockUser` | api/controllers/relationship_block_mute.go:29-76 | The block transaction, also on drifted counters; it keeps counters right that are right |
| `FollowCounts.FollowStore.RemoveUserFollowEdges` | api/controllers/follow_helpers.go:26-57 | The three count updates and the deletion |

## Left out

- BracketRaces.TimelyRunKeepsTree: reads are not steps of their own; a write carries what its request has read.
- VoteStore.VoteStore.VoteItem: the visibility, membership, status and rate-limit gates in front of the existing-vote lookup are one refusal that may happen at any time before the write.
- VoteStore.VoteStore.SkipMatchup: the same gates are left out as for a vote.
- VoteRuns.EveryRunBalances: merges and reconciles are not steps of the interleaving, since the equality is not meant to survive them while deltas are pending; they have their own conditions. Failed Redis commands, key expiry and the vote archive are not covered either.
- VoteStore.VoteStore.FlushVotesOnce: keys or values that do not parse, a cancelled context, and a put-back that itself fails are not modelled.
- VoteStore.VoteStore.MergeDeviceVotesToUser: runs as one step against the ledger; requests of the same device in flight are not considered.
- RefreshTokens.TokenStore.RotateRefreshToken: serializable transactions are atomic steps; a conflict that the database rejects is a step that does not happen. The rotation scheme of section 4.14 of RFC 9700 is modelled as the code has it.
- JobQueue.RedisQueue.RunWorker: a number of turns stands for the endless loop; shutdown, a process crash with a job in hand, and handler timeouts are not modelled.
- EtagWriter.ServeWithETag: headers other than the content type and the tag, the body length header, and clients whose writer cannot flush are not modelled. A handler's tag is a parameter.
- Dedupe.DedupeConservesVotes: is about one set of counts; merging stored counts while deltas are buffered can count a delta twice.
- SeedLabels.ParseOfFormat: strings are sequences of characters; invalid UTF-8 is not modelled.
- The fallback that writes counters to the database when Redis is not configured (the development path).
- Resolving user handles among a bracket's entries: an entry is the text that results.
- `tryAdvanceIfExpired`, `AdvanceBracket` and `AdvanceExpiredBrackets`: their locks and checks only restrict when an advance step happens, and the run theorems allow it at any time.
- `AddItem`, `UpdateItem`, `DeleteItem`, `AttachMatchup`, `DetachMatchup`: owner edits outside the tree invariant.
- Notifications, win counters, caches and activity events: best effort, no effect on the state modelled here.
- The rest of account deletion, community member counts, and feeds paged by timestamp alone.
- FollowCounts.EveryRunCounts: removing an account is not a step of the runs, as it does not keep the equality; it has its own condition.
- EtagWriter.StreamingTypes: only ASCII letters are lowered.
- HTTP and RPC plumbing, storage, mail, push, the front end, and the search, home and activity queries.

# Verification of the live-game core

A Dafny model of the API's live-game core and proofs of what it promises: the CS2 round pipeline from polled snapshots
to paid winners, the series lifecycle and its orchestration, the launcher and its forecast, the soccer windows from raw
feed messages to settlements, the autopilot's task queue, the entry gate, the payout protocol, the player ranking and
the frame splitter of the score stream.

Run `dafny verify dfyconfig.toml` (Dafny 4.11).

## How it is built

Each component is a function of its state, as the source's code is read, and where the source changes state step by step
there is a class or a method with loops proved to compute that function. The properties are lemmas over all runs of the
functions. Beside each of the main operations stands what it means in the fields of its own inputs, without its helpers:
who is paid, what an answer says, when a round locks, which series is next.

- CS2 pipeline: `Cs2Types`, `Cs2Settle`, `RoundTracker`, `RoundEngine`, `RoundRuns`, `TrackedRuns`, `OneOpenRound`,
  `FallingScore`, `GatewayCache`, and what locks and settles a round in `RoundClock` and `Cs2Answers`; players and points:
  `ClassicRules`, `RoundOutcome`, `ClassicPoints`, `Leaderboard`; the arena as a whole: `ArenaModel`, `ArenaFairness`,
  `ArenaFinish`, `ArenaRuns`, `ArenaFeeds`, `StoredAnswers`, `ScoreRuns` (where every point comes from), `PerfectPlayer`,
  `FinalResults`. `ArenaRuntime` holds the linked objects: the engine calls its
  owner inside a settlement, and the owner voids the engine's rounds before that call returns.
- Series: `SeriesLifecycle` and `SeriesRuns` (the reducer and its traces), `SeriesDecisions` (what a poll does),
  `SeriesOrchestrator` (failed and repeated polls), `OrchestratorRules`, `OrchestratorRuntime` (the object, each awaited write able to fail), `ArenaMoney` (finish, payout, cancellation,
  skip and refunds interleaved), `MoneyCauses` (what makes the books change), `MoneyReach` (when an arena's money can still get out).
- Launching: `NextSeries`, `ArenaForecast`, `LaunchRules`; `Autopilot` (the promise chain and the start of a runner as a step system),
  `RunnerEnds` (whose runner an end takes away).
- Entries and money: `EntryGate`, `EntrySystem`, `GateAndMoney` (the gate and the money on one arena row), `PayoutService`,
  `PayoutRuns`, `PayoutElsewhere`.
- Soccer: `Planner`, `MatchSignals`, `SoccerSettlement`, `SoccerBatch`, `SoccerFeed`, and in plain terms `FeedMeaning` and
  `SoccerMeaning`.
- `PlayerRanking`, `RankingOrder`, `SseClient`, `SseRoundTrip`.

Times are integers in milliseconds or minutes, identities are naturals that are only compared, lamports are naturals.
What the outside decides is a parameter: polls, questions, who finishes when inside a callback, which write fails, whether
a failed write was committed all the same.

## What the proofs found

- `MoneyReach.MoneyGetsOutExactlyWhen` says for every reachable arena with paid entries whether its money can still get out.
  It cannot where a cancellation went through on chain but not in the row and the map then went live
  (`MoneyReach.AHalfCancellationStrandsTheEntries`), nor where the row was finished and its finisher did not get to pay,
  over an escrow that is still open (`MoneyReach.ALostFinishStrandsTheEntries`): nothing in the service tries again.
- `PayoutElsewhere.InventedExactlyWhen`: with an escrow that somebody else settled, rows are reported as sent exactly if the
  calls' failures leave a complete plan behind and a later call gets through. A failed deletion does it, but so does a first call that
  does not reach the chain (`PayoutElsewhere.AnUnreachableChainInventsAPlan`).
- `GateAndMoney.ReleaseTakesMoneyExactlyWhen`: dropping the gate of an arena that is over lets another player's money in
  exactly if the escrow is still open and a request is on its way that read the lobby before. The release does not check
  that. There is no time in the model: such a request has to stay between its look at the row and the gate until the release
  (`GateAndMoney.ASlowRequestPaysIntoAFinishedArena`).
- `MatchSignals.MinuteFallsBackExactlyWhen`: the promise that a minute never regresses within a segment fails for a half
  whose first messages derive no minute.
- `FallingScore.TwoRoundsOpenExactlyWhen`: without a non-decreasing score two rounds can be open, and exactly which locks
  do that.
- `Autopilot.LaunchAfterTheAbortExactlyWhen`: a tick that passed its check before the abort can still start a launch; its
  runner is then not taken on. `Autopilot.RunnerAfterTheAbortExactlyWhen`: a runner comes in after the abort exactly if its
  start had passed its last check.
- `SeriesDecisions.NoArenaAfterTheClinch`: no arena opens for a series that a team has clinched, but for one: the lobby of
  the first map opens on the clock alone (`SeriesDecisions.ALobbyOpensForADecidedSeries`).
- The repository's README says that wrong or missed answers eliminate; in the classic mode the code eliminates by the
  zone, which is what is modelled.
- The frame splitter knows two blank lines, LF LF and CR LF CR LF. A blank line of mixed ends, which section 9.2.6 of the
  WHATWG HTML Living Standard also accepts, is no boundary to the code, and so none in `SseClient.FindsTheFirstBlank`.

## Model

| member | source | states |
|---|---|---|
| `Cs2Settle.TeamOrderIsIrrelevant` | apps/api/src/cs2/settle.ts:52-114 | The order in which the feed lists the two teams, before or after, never changes an answer. |
| `Cs2Settle.WinnerQuestionsAreOpposite` | apps/api/src/cs2/settle.ts:57-67 | Over exactly one scored round the two teams' "does it win" questions have opposite answers, under score corrections and swapped order too. |
| `Cs2Answers.InvalidExactlyWhen` | apps/api/src/cs2/settle.ts:52-114 | Exactly which questions cannot be answered, and with what reason: other teams than before, an incomplete question, an unknown team. |
| `Cs2Answers.WinnerMeans` | apps/api/src/cs2/settle.ts:61-67 | "Does T win" is a yes exactly if T's row shows more rounds after than before. |
| `Cs2Answers.AceMeans` | apps/api/src/cs2/settle.ts:76-82 | An ace: five players listed before and after, each with one kill more than in their last entry before. |
| `Cs2Answers.MultikillMeans` | apps/api/src/cs2/settle.ts:84-91 | A multikill: some player listed before gained that many kills; with nobody listed only a bound of nothing is met. |
| `Cs2Answers.TeamSurvivorsMean` | apps/api/src/cs2/settle.ts:93-100 | More than y of a team survived exactly if fewer than 5 - y more deaths stand on it. |
| `Cs2Answers.RoundSurvivorsMean` | apps/api/src/cs2/settle.ts:102-108 | More than y of all ten survived exactly if fewer than 10 - y more deaths stand on both teams together. |
| `Cs2Answers.WeaponKillMeans` | apps/api/src/cs2/settle.ts:69-74 | A kill with the weapon: the two teams' counts of it, each that of the first entry or zero, went up together. |
| `Cs2Answers.OvertimeMeans` | apps/api/src/cs2/settle.ts:110-112 | Overtime is asked of the score alone: twelve all after the round. |
| `RoundTracker.TrackCs2Poll` | apps/api/src/cs2/round-tracker.ts:26-74 | The tracker as the source runs it, pushing signals and reassigning its state, computes the signal function that all run theorems are about. |
| `RoundClock.LocksExactlyWhen` | apps/api/src/cs2/snapshot.ts:106-112 | A poll locks round n exactly if it follows a poll of the same two teams, n is the score sum plus one, the clock ticks more than 30 seconds above the last one, and n was not locked last. |
| `RoundClock.EndsExactlyWhen` | apps/api/src/cs2/round-tracker.ts:48-66 | A poll ends round n exactly if n was being played, one more round stands on the score, the teams are the same, and a lock of that stretch is still good. |
| `RoundClock.OtherSignalsExactlyWhen` | apps/api/src/cs2/round-tracker.ts:31-36 | The match ends with the first poll that shows no game; every game is passed on. |
| `RoundClock.StreamLocksExactlyWhen` | apps/api/src/cs2/round-tracker.ts:26-74 | Over every stream, from what it showed alone: the next poll locks round n exactly if it jumps in that round and the last jump before it, in the same stretch of the same teams, was not in that round. |
| `RoundClock.WithoutAJumpNothingSettles` | apps/api/src/cs2/round-tracker.ts:1-2 | A stream in which no two successive polls show such a jump never locks a round and never settles one. |
| `TrackedRuns.DeliveredSignals` | apps/api/src/cs2/round-tracker.ts:36-71 | What one poll does to the engine: snapshot first, then the end of the round played, then the lock; a new team pair only shows its snapshot. |
| `TrackedRuns.SettlementsNeverMixRounds` | apps/api/src/cs2/round-engine.ts:139-172 | For every poll stream with any polls missed: a round n settles only between a snapshot that derives n and one that derives n+1, of the same teams, on the round-end and the match-end path. |
| `TrackedRuns.SettledRoundsHaveOneWinner` | apps/api/src/cs2/settle.ts:57-67 | So for every settled round of every run the two winner questions have opposite answers. |
| `Cs2Answers.EveryAnswerIsTrue` | apps/api/src/cs2/round-engine.ts:188-215 | Over every poll stream, every settled round carries the answer of its own question over its own two snapshots, and keeps both. |
| `Cs2Answers.SettledWinnersRose` | apps/api/src/cs2/round-engine.ts:147-159 | Over every poll stream, a round settled on "does T win" was answered yes exactly if T's score rose, between two snapshots of the same teams that are one round apart. |
| `RoundEngine.VoidEachEffect` | apps/api/src/cs2/round-engine.ts:180-186 | Voiding what remains hits exactly the pending rounds in scope and touches no other round, baseline or log entry. |
| `RoundEngine.VoidRemainingMeans` | apps/api/src/cs2/round-engine.ts:179-185 | Voiding through round n voids every open or locked round up to and including it, and no other. |
| `RoundEngine.SettleKeeps` | apps/api/src/cs2/round-engine.ts:188-215 | A settlement, with the owner finishing inside the callback or not, resolves its round, leaves resolved rounds alone and keeps the log legal. |
| `RoundEngine.MatchEndKeeps` | apps/api/src/cs2/round-engine.ts:162-178 | After a match end no round is open or locked, and what was resolved before is as it was. |
| `RoundRuns.EveryRunIsLegal` | apps/api/src/cs2/round-engine.ts:93-231 | For arbitrary signals, duplicates included, with re-entrant finishes: the callbacks replay to exactly the engine's statuses, and from a finish on nothing is or becomes open or locked. |
| `RoundRuns.ResolvedRoundsStay` | apps/api/src/cs2/round-engine.ts:69-87 | No signal changes a settled or voided round or forgets a round. |
| `RoundRuns.OpenAfterFinish` | apps/api/src/cs2/round-engine.ts:93-95 | Opening round one in a finished arena leaves it quiet exactly when round one exists already or no teams are known. |
| `RoundRuns.ReplayMeaning` | apps/api/src/cs2/round-engine.ts:19-23 | What a legal callback log says of each round's status. |
| `RoundRuns.LifeOfARound` | apps/api/src/cs2/round-engine.ts:93-231 | Each round is opened once, locked at most once and ended at most once, in that order; no number is reopened. |
| `RoundRuns.NothingUnannounced` | apps/api/src/cs2/round-engine.ts:133-159 | Nothing happens to a round before it opened, and a settlement is always preceded by a lock. |
| `OneOpenRound.OneOpenRoundAndTheCacheKnowsIt` | apps/api/src/cs2/round-engine.ts:124-146 | With one team pair and a score that never falls, at most one round is open, it is the highest, and the reconnect cache's open round is exactly that one, absent iff none. |
| `OneOpenRound.LockLeavesNothingBehind` | apps/api/src/cs2/round-tracker.ts:68-71 | Right after the poll that locked round n every lower round is settled or voided. |
| `FallingScore.BackwardLockOpensASecondRoundExactlyWhen` | apps/api/src/cs2/round-engine.ts:124-146 | Where the score falls back: a lock below the open round, of a known round or of one never seen, opens a second round exactly when the round after it is new and the arena unfinished (or that one was open already). |
| `FallingScore.SecondRoundOpensExactlyWhen` | apps/api/src/cs2/round-engine.ts:124-146 | Of every signal: where no two rounds are open it makes two exactly if it is a lock whose next round is new, in an unfinished arena, beside an open round that it does not resolve. |
| `FallingScore.BesideTheHighestExactlyWhen` | apps/api/src/cs2/round-engine.ts:124-146 | Where the one open round is the highest, those are the locks with their next round below it and new; no other signal does it. |
| `FallingScore.TwoRoundsOpenExactlyWhen` | apps/api/src/cs2/round-engine.ts:86-185 | Over every run of an opened arena, whatever it is fed: two rounds are open at some time if and only if such a lock came. |
| `FallingScore.AFallingScoreOpensTwoRounds` | apps/api/src/cs2/round-tracker.ts:50-71 | A poll stream of one team pair whose engine ends with two open rounds: five rounds won, then a score of two. |
| `GatewayCache.ArenaCache.UpdateCache` | apps/api/src/gateway/ws.ts:242-261 | The mutable cache stays the fold over all messages broadcast. |
| `GatewayCache.CacheIsLastOpened` | apps/api/src/gateway/ws.ts:252-261 | On every legal log the cached open round is the last opened one as long as it is open, and absent after. |
| `ClassicRules.Cs2ClassicZoneAfter` | packages/contracts/src/cs2-classic.ts:14-21 | The loop over the increment table computes the zone specification. |
| `ClassicRules.ZoneInRegulation` | packages/contracts/src/cs2-classic.ts:6-20 | Closed form of the zone from the grace rounds to round 24. |
| `ClassicRules.ZoneInOvertime` | packages/contracts/src/cs2-classic.ts:9-15 | The zone is 21 after regulation and one more per overtime round, without bound. |
| `ClassicRules.ZoneNeverFalls` | packages/contracts/src/cs2-classic.ts:14-21 | The zone never falls from round to round. |
| `ClassicRules.PerfectPlayerIsNeverBelowTheZone` | packages/contracts/src/cs2-classic.ts:14-31 | For every round a player without a wrong answer has at least the zone, and seven more from round 24 on. |
| `RoundOutcome.ThresholdIsReached` | apps/api/src/settlement/classic-outcome.ts:44-50 | Somebody always reaches the score below which players fall; when it is not the zone it is the top score. |
| `RoundOutcome.ZoneRoundIsFair` | apps/api/src/settlement/classic-outcome.ts:35-54 | A zone round never removes everybody, never lets a removed player outscore a survivor, and starts the Final Circle only with level survivors. |
| `RoundOutcome.AnsweringLeavesSomebody` | apps/api/src/settlement/apply-outcome.ts:25-40 | Under the survival rule a hardcore round in which anybody answered leaves somebody. |
| `RoundOutcome.HardcoreRoundIsFair` | apps/api/src/settlement/apply-outcome.ts:30-57 | Among level players hardcore rules keep the survivors level; a round that removes everybody gave nobody a point. |
| `ClassicPoints.ResultMeans` | apps/api/src/settlement/classic-outcome.ts:35-42 | A result repeats its player's stored answer, judges it, and pays for the right one only: two points in rounds 1, 12, 13 and 24 while the zone is on, one otherwise. |
| `ClassicPoints.ZoneRemoves` | apps/api/src/settlement/classic-outcome.ts:44-50 | With the zone on, a player falls exactly if they end below it and somebody ends ahead of them. |
| `ClassicPoints.FinalCircleStarts` | apps/api/src/settlement/classic-outcome.ts:52-53 | Final Circle starts exactly if nobody reaches the zone and at least two are left. |
| `ClassicPoints.HardcoreRemoves` | apps/api/src/settlement/apply-outcome.ts:16-57 | Under hardcore rules a right answer pays one point, and whoever was not right falls unless they answered and nobody was right. |
| `ClassicPoints.SurvivalRuleMeans` | apps/api/src/settlement/apply-outcome.ts:20-28 | The survival rule is told of a round exactly if hardcore rules apply, somebody answered, and nobody was right. |
| `Leaderboard.LeaderboardService.AddPlayer` | apps/api/src/leaderboard/service.ts:39-50 | A player is seated once, with zero points. |
| `Leaderboard.LeaderboardService.OnPlayerResult` | apps/api/src/leaderboard/service.ts:52-60 | Results wait per round and change no row. |
| `Leaderboard.LeaderboardService.OnRoundSettled` | apps/api/src/leaderboard/service.ts:62-84 | Applies a round's results at once and finishes by the board's rule: last player standing, or everybody who fell together. |
| `Leaderboard.LeaderboardService.Finalize` | apps/api/src/leaderboard/service.ts:86-89 | At a match end whoever is active wins, once. |
| `Leaderboard.ApplyResultsPointwise` | apps/api/src/leaderboard/service.ts:95-99 | A row changes only by its own player's results. |
| `ArenaFairness.NobodyGetsAhead` | apps/api/src/leaderboard/service.ts:95-99 | Applying a fair outcome puts no eliminated player ahead of an active one. |
| `ArenaFairness.SurvivorsStayLevel` | apps/api/src/settlement/apply-outcome.ts:30-57 | From a level field the survivors of hardcore rules stay level on the leaderboard. |
| `ArenaFairness.OutcomeIsFair` | apps/api/src/cs2/arena-runtime.ts:266-286 | Whatever mode and stage the runtime is in, the outcome it asks for is fair. |
| `ArenaFairness.EverybodyOutMeansNoPoints` | apps/api/src/leaderboard/service.ts:70-84 | When one round removes everybody, nobody scored in it and all of them were level. |
| `ArenaFinish.FinishRule` | apps/api/src/leaderboard/service.ts:62-84 | The board goes on exactly while two players are left; otherwise the last one standing wins, or all who fell together, and the winner list is never empty. |
| `ArenaFinish.SettlementDecides` | apps/api/src/cs2/arena-runtime.ts:228-263 | A settlement leaves the arena undecided or ready to finish with a non-empty winner list. |
| `ArenaFinish.SettlementDecidesFairly` | apps/api/src/cs2/arena-runtime.ts:228-263 | Fairness survives every settlement, and winners lead the board. |
| `ArenaFinish.FinalizeDecides` | apps/api/src/cs2/arena-runtime.ts:105-109 | A match end crowns whoever is still standing and decides the arena. |
| `ArenaFinish.NoLoserRanksAboveAWinner` | apps/api/src/cs2/arena-runtime.ts:345-358 | In the stored results no loser has a better rank than a winner. |
| `ArenaRuns.ArenaFollowsEngine` | apps/api/src/cs2/arena-runtime.ts:327-343 | The arena's engine goes exactly the way of a bare engine that is told when its owner finishes: the callback is the only way in. |
| `ArenaRuns.EveryArenaIsSound` | apps/api/src/cs2/arena-runtime.ts:228-343 | In every run the player store and the leaderboard agree on every status, the arena finishes at most once, and the winner list is non-empty if anyone joined. |
| `ArenaRuns.NoEliminatedPlayerIsAhead` | apps/api/src/cs2/arena-runtime.ts:228-286 | In every run, classic or hardcore, with all joins before the first settlement: no eliminated player has more points than an active one, and hardcore and Final Circle keep the active level. |
| `ArenaRuns.WinnersRankFirst` | apps/api/src/cs2/arena-runtime.ts:345-358 | In every such run exactly one result list is written, and in it a winner's place is never behind a loser's. |
| `ArenaRuns.ResultsAreFinal` | apps/api/src/leaderboard/service.ts:62-115 | Over any continuation of a run eliminated players' rows are frozen and winners are final. |
| `ArenaRuns.AnswersCloseWithTheRound` | apps/api/src/cs2/arena-runtime.ts:178-189 | An answer is recorded only for an open round and an active player. |
| `StoredAnswers.LastAnswerIsStored` | apps/api/src/cs2/arena-runtime.ts:178-189 | Over every run: what is stored for a player and a round is the last answer they gave while the round was open and they were in. |
| `ScoreRuns.SettlementPays` | apps/api/src/cs2/arena-runtime.ts:237-300 | What a settlement does to every player: who is paid how much, who missed, who falls, and who wins, from their stored answers and scores alone. |
| `ScoreRuns.FinalCircleAfter` | apps/api/src/cs2/arena-runtime.ts:237-300 | Final Circle is on from the round after one in which nobody standing reached the zone and two stay, and stays on. |
| `ScoreRuns.SignalScores` | apps/api/src/cs2/arena-runtime.ts:191-207 | In every reachable arena points come from settlements alone, one a signal, and each pays what its answer says. |
| `PerfectPlayer.PerfectPlayerStaysIn` | apps/api/src/settlement/classic-outcome.ts:30-64 | Over every run: a player on the roster who answered every settled round right, the rounds having settled one after the other, is never eliminated and has the perfect score, which is not below the zone. |
| `FinalResults.ResultsMean` | apps/api/src/cs2/arena-runtime.ts:345-359 | Once there are winners one result list is stored: each player's points, a place behind everybody with more, whether they won, and the settled rounds they were in. |
| `ArenaRuntime.Cs2RoundEngine.HandleRoundLock` | apps/api/src/cs2/round-engine.ts:124-146 | The mutable engine's lock follows the engine function. |
| `ArenaRuntime.Cs2RoundEngine.HandleRoundEnd` | apps/api/src/cs2/round-engine.ts:148-159 | The round end with its re-entrant callback: the whole arena after it, including a finish before the method returns. |
| `ArenaRuntime.Cs2RoundEngine.Settle` | apps/api/src/cs2/round-engine.ts:188-215 | Settles or voids a round and runs the owner's callback inside. |
| `ArenaRuntime.Cs2RoundEngine.SettleProvenRounds` | apps/api/src/cs2/round-engine.ts:162-172 | The loop over all rounds, entries being overwritten while it runs, settles just the one round that the last snapshot proves. |
| `ArenaRuntime.Cs2RoundEngine.HandleMatchEnd` | apps/api/src/cs2/round-engine.ts:162-178 | Match end on the linked objects. |
| `ArenaRuntime.Cs2ArenaRuntime.OpenArena` | apps/api/src/cs2/arena-runtime.ts:79-117 | A runtime as the orchestrator opens it, seated and with round one open, is a sound new arena. |
| `ArenaRuntime.Cs2ArenaRuntime.Join` | apps/api/src/cs2/arena-runtime.ts:137-140 | Joining keeps the arena sound and matches the arena function. |
| `ArenaRuntime.Cs2ArenaRuntime.SubmitAnswer` | apps/api/src/cs2/arena-runtime.ts:178-189 | Submitting answers: the refusals in the source's order, and the recorded answer. |
| `ArenaRuntime.Cs2ArenaRuntime.Publish` | apps/api/src/cs2/arena-runtime.ts:95-110 | One signal over the bus, engine first and then the runtime's own match-end subscription, keeps the object valid and matches the arena function. |
| `ArenaRuntime.Cs2ArenaRuntime.HandleSettle` | apps/api/src/cs2/arena-runtime.ts:228-263 | Scores the active players, feeds store and leaderboard, and finishes the arena if that decided it. |
| `ArenaRuntime.Cs2ArenaRuntime.SettleClassic` | apps/api/src/cs2/arena-runtime.ts:266-286 | The classic settlement, the Final Circle starting once with the next round. |
| `ArenaRuntime.Cs2ArenaRuntime.FlushFinishIfPending` | apps/api/src/cs2/arena-runtime.ts:327-343 | The pending winners are taken once; they void the engine's rounds, become winners in the store, and their results are handed over. |
| `ArenaFeeds.FeedFollowsEngine` | apps/api/src/cs2/arena-runtime.ts:95-104 | An arena on a snapshot feed, with joins and answers in between, takes its engine where some bare engine on the same polls goes. |
| `ArenaFeeds.ArenaSettlementsNeverMixRounds` | apps/api/src/cs2/round-engine.ts:139-172 | So in every arena no settlement ever diffs across two rounds. |
| `ArenaFeeds.ArenaHasOneOpenRound` | apps/api/src/gateway/ws.ts:242-261 | And on a steady feed an arena has one open round at a time, as its reconnect cache says. |
| `SeriesLifecycle.ProcessCs2SeriesPoll` | apps/api/src/cs2/series-lifecycle.ts:72-147 | The reducer with its early returns and reassigned state computes the staged reducer function. |
| `SeriesRuns.LiveFlagsAlwaysAgree` | apps/api/src/cs2/series-lifecycle.ts:34-50 | In every reachable state, until decided, the two live flags are equal. |
| `SeriesRuns.EveryTraceIsASequenceOfMaps` | apps/api/src/cs2/series-lifecycle.ts:72-147 | Every trace is a sequence of whole map lives with consecutive numbers, between two openings exactly one end or cancellation; a map seen live is never cancelled and an end follows only a live map. |
| `SeriesRuns.TraceIsBounded` | apps/api/src/cs2/series-lifecycle.ts:52-147 | With a fixed known format no arena goes beyond it, and there are at most 3·format+1 actions. |
| `SeriesRuns.EndIsAbsorbing` | apps/api/src/cs2/series-lifecycle.ts:77 | A decided or invalid series stays as it is, without actions. |
| `SeriesRuns.MalformedPollIsTimedOnly` | apps/api/src/cs2/series-lifecycle.ts:86-105 | A malformed poll does exactly what the clock says: a timed opening, a no-show, or both. |
| `SeriesRuns.ForfeitNeedsTwoSignals` | apps/api/src/cs2/series-lifecycle.ts:107-128 | A forfeit cancellation needs two successive valid polls carrying the signal for that map, which was not live. |
| `SeriesDecisions.PollActsExactly` | apps/api/src/cs2/series-lifecycle.ts:72-147 | The actions of every poll, from the score and the clock: the lobby ten minutes ahead, a no-show after an hour, a forfeit, a map that went live or is over. |
| `SeriesDecisions.StateFollowsActions` | apps/api/src/cs2/series-lifecycle.ts:72-147 | What a poll leaves behind follows from its actions. |
| `SeriesDecisions.DecidedExactlyWhen` | apps/api/src/cs2/series-lifecycle.ts:56-69 | Over every run with a known format: a poll that ends a map, or gives it up, opens the next one exactly if maps are left and no team has more than half of them; otherwise it decides the series, by a clinch exactly if a team has. |
| `SeriesDecisions.NoArenaAfterTheClinch` | apps/api/src/cs2/series-lifecycle.ts:86-92 | Where a team has more than half of the maps only the lobby of the first map ever opens, on the clock alone. |
| `SeriesDecisions.ALobbyOpensForADecidedSeries` | apps/api/src/cs2/series-lifecycle.ts:86-92 | Such a first lobby. |
| `NextSeries.LauncherTakesTheFirst` | apps/api/src/cs2/next-series.ts:46-65 | Whatever the random draws, the launcher takes an eligible series that no other precedes, takes one iff there is one, and launches it exactly from ten minutes before its start. |
| `LaunchRules.LauncherMeans` | apps/api/src/cs2/next-series.ts:28-65 | The launcher in the series' fields: who may launch, who goes before whom, and that it launches from ten minutes before the start on and waits until then. |
| `ArenaForecast.ForecastArenas` | apps/api/src/cs2/arena-forecast.ts:16-59 | The three mutating passes give every candidate exactly one label, the one of its class. |
| `ArenaForecast.QueueMeans` | apps/api/src/cs2/arena-forecast.ts:33-35 | The queue holds exactly the launch candidates that are not running. |
| `ArenaForecast.GreedyIsReplay` | apps/api/src/cs2/arena-forecast.ts:36-45 | One greedy pass over the sorted queue takes the series that repeated launcher choices take. |
| `ArenaForecast.ForecastIsTheLauncherReplayed` | apps/api/src/cs2/arena-forecast.ts:32-45 | The expected series, in order, are those got by taking the launcher's choice each time the slot frees. |
| `ArenaForecast.SlotsAreDisjoint` | apps/api/src/cs2/arena-forecast.ts:36-42 | The expected slots follow one another without overlap, each in time for its series. |
| `LaunchRules.DurationsAre` | apps/api/src/cs2/arena-forecast.ts:9-13 | How long a series is expected to take: four hours, six, or one and a half a map. |
| `LaunchRules.SlotFreesAt` | apps/api/src/cs2/arena-forecast.ts:24-30 | The slot frees with the latest expected end of what runs, or now if that has passed. |
| `LaunchRules.SlotIsTaken` | apps/api/src/cs2/arena-forecast.ts:36-45 | A series is in time for the slot up to half an hour after its start, and takes it when both are ready. |
| `LaunchRules.ForecastMeans` | apps/api/src/cs2/arena-forecast.ts:16-59 | What each label says of a series; one that could launch is expected exactly if the launcher, run after run, gets to it. |
| `SeriesOrchestrator.TakenUpAgain` | apps/api/src/cs2/series-orchestrator.ts:502-537 | An action that would succeed reaches the same arena from wherever an attempt at it stopped, and again from its own outcome. |
| `SeriesOrchestrator.StaysDone` | apps/api/src/cs2/series-orchestrator.ts:331-350 | What an action did survives any later successful action on the arena, and any part of one. |
| `SeriesOrchestrator.RetryEndsTheSame` | apps/api/src/cs2/series-orchestrator.ts:281-305 | A poll's actions that failed anywhere, repeated in full, end in the same arenas and series status as if nothing had failed. |
| `SeriesOrchestrator.AllRetriesEndTheSame` | apps/api/src/cs2/series-orchestrator.ts:299-302 | The same after any number of failed attempts. |
| `SeriesOrchestrator.ReducerOpensFirst` | apps/api/src/cs2/series-lifecycle.ts:72-147 | The one assumption of that: the reducer never opens an arena after another action on it. |
| `SeriesOrchestrator.RepeatedPollEndsTheSame` | apps/api/src/cs2/series-orchestrator.ts:299-302 | So every poll of the reducer, repeated on the same snapshot after any failures, ends as if nothing had failed. |
| `OrchestratorRules.FailsExactlyWhen` | apps/api/src/cs2/series-orchestrator.ts:311-537 | An action fails on an arena exactly where it comes too late, or before the series is known. |
| `OrchestratorRules.RowChangesExactlyWhen` | apps/api/src/cs2/series-orchestrator.ts:311-537 | What an action makes of an arena: it opens, goes live with two paid entries, or is cancelled with its reason, its escrow with it. |
| `OrchestratorRules.SeriesChangesExactlyWhen` | apps/api/src/cs2/series-orchestrator.ts:311-537 | The series is decided or given up with the actions that say so; no other arena changes. |
| `OrchestratorRules.FirstOpeningMakesALobby` | apps/api/src/cs2/series-orchestrator.ts:331-351 | The first opening of an arena of a known series makes a lobby and runs it. |
| `OrchestratorRuntime.Orchestrator.Poll` | apps/api/src/cs2/series-orchestrator.ts:281-309 | The lifecycle state is committed only when every action went through; a failed poll leaves it and an interrupted world. |
| `OrchestratorRuntime.Orchestrator.OpenArena` | apps/api/src/cs2/series-orchestrator.ts:331-351 | Opening with a failing write in any place. |
| `OrchestratorRuntime.Orchestrator.MatchIsLive` | apps/api/src/cs2/series-orchestrator.ts:436-463 | Going live, or cancelling for want of two paid entries, with a failing write in any place. |
| `OrchestratorRuntime.Orchestrator.CancelFor` | apps/api/src/cs2/series-orchestrator.ts:502-537 | Cancelling with a failing write in any place. |
| `ArenaMoney.EveryRunKeeps` | apps/api/src/cs2/series-orchestrator.ts:399-410 | What holds in every interleaving of finish, crash close, cancel, skip, refund and failing writes. |
| `ArenaMoney.NeverPaysAndRefunds` | apps/api/src/cs2/series-orchestrator.ts:166-192 | An arena never both pays winners and gives an entry back, in its own books or on chain; it is paid at most once, by the one whose own update finished it; and on chain it marks as refunded only what the chain gave back. |
| `ArenaMoney.CancelledEntriesCanBeRefunded` | apps/api/src/payout/refunds.ts:9-26 | Every paid entry of a cancelled arena is refunded by a refund run without failures. |
| `ArenaMoney.EndsAreFinal` | apps/api/src/cs2/series-orchestrator.ts:213-260 | Finished and cancelled are final under every step. |
| `MoneyReach.MoneyGetsOutExactlyWhen` | apps/api/src/cs2/series-orchestrator.ts:399-410 | For every reachable book of an on-chain arena with a paid entry: some continuation pays the winners or clears every entry if and only if the arena is a lobby or cancelled, or live over an escrow not cancelled, or finished with the escrow paid or, over an open one, with the finisher's payout still to come. |
| `MoneyReach.StrandedForGood` | apps/api/src/payout/refunds.ts:9-26 | In all other books nothing is ever paid or refunded, over a cancelled or an open escrow, whatever anybody does. |
| `MoneyReach.AHalfCancellationStrandsTheEntries` | apps/api/src/cs2/series-orchestrator.ts:523-529 | A run into a cancelled escrow: the cancellation is through on chain but not in the row, and the map goes live. |
| `MoneyReach.ALostFinishStrandsTheEntries` | apps/api/src/cs2/series-orchestrator.ts:400-408 | A run into an open escrow: the row is finished, but the one who finished it never learned so and does not pay. |
| `MoneyReach.AFinisherThatStopsStrandsTheEntries` | apps/api/src/cs2/series-orchestrator.ts:179-187 | The same from every reachable book whose finisher stops before it pays, or whose call to the chain fails. |
| `MoneyCauses.RowChangesExactlyWhen` | apps/api/src/cs2/series-orchestrator.ts:399-463 | Each change of the arena row has exactly these causes. |
| `MoneyCauses.EscrowChangesExactlyWhen` | apps/api/src/cs2/series-orchestrator.ts:166-192 | Each change of the escrow has exactly these causes. |
| `MoneyCauses.PassChangesExactlyWhen` | apps/api/src/payout/refunds.ts:9-26 | Each new pass, each refund mark and each refund on chain has exactly these causes. |
| `MoneyCauses.WorkComesExactlyFrom` | apps/api/src/cs2/series-orchestrator.ts:399-529 | Who may finish, pay, cancel or refund, and from what they saw. |
| `EntryGate.Submission.Finish` | apps/api/src/gateway/entry-prepare-store.ts:43-48 | Finishing counts once; the last one out wakes every waiter. |
| `EntryGate.EntryGates.BeginEntrySubmission` | apps/api/src/gateway/entry-prepare-store.ts:37-42 | A request is accepted exactly if the gate is not closed, and is then counted. |
| `EntryGate.EntryGates.CloseEntrySubmissions` | apps/api/src/gateway/entry-prepare-store.ts:57-63 | Closing takes effect at once and waits exactly if somebody is in flight. |
| `EntryGate.EntryGates.ReleaseEntryGate` | apps/api/src/gateway/entry-prepare-store.ts:52-54 | Releasing forgets the gate. |
| `EntrySystem.EveryRunKeeps` | apps/api/src/gateway/rest.ts:299-360 | What holds under every interleaving of requests, closers, cancellations, refunds, releases and restarts, as long as no gate is released under an outstanding request that read the lobby. |
| `EntrySystem.AfterTheCloseNothingIsInFlight` | apps/api/src/gateway/entry-prepare-store.ts:57-63 | Once a close returned nothing is in flight and no request gets through until release. |
| `EntrySystem.NobodyWaitsForNothing` | apps/api/src/gateway/entry-prepare-store.ts:43-48 | Whoever waits is let go by the last request in flight; no waiter is lost. |
| `EntrySystem.LiveMeansTwoPaidForGood` | apps/api/src/cs2/series-orchestrator.ts:436-463 | An arena goes live only with two paid passes, and no later step adds, refunds or cancels one. |
| `EntrySystem.ACarefulReleaseIsSafe` | apps/api/src/gateway/entry-prepare-store.ts:51-54 | In an arena that is over, with no request outstanding that read the lobby: after the release no continuation, restarts included, takes another player's money. |
| `GateAndMoney.EveryCarefulRunKeeps` | apps/api/src/cs2/series-orchestrator.ts:436-463 | The gate and the money on one arena row and one table of passes, an entry asking only for an accepted request and an open escrow: both invariants hold in every joint run whose releases are careful. |
| `GateAndMoney.PassesComeInInTheLobby` | apps/api/src/gateway/rest.ts:299-345 | The row is not asked again when an entry is paid, and yet it is a lobby then: the gate sees to it. |
| `GateAndMoney.LiveMoneyBehindTheGate` | apps/api/src/cs2/series-orchestrator.ts:436-463 | Behind the gate an arena that is live or finished has two paid entries at least, none given back, is cancelled by no operator skip, and its money still gets out exactly if its escrow is paid, or open with the arena live or the finisher's payout to come. |
| `GateAndMoney.ReleaseTakesMoneyExactlyWhen` | apps/api/src/gateway/rest.ts:299-345 | In every reachable arena that is over, however its gate was released before: after a release some continuation takes another player's money if and only if a request is on its way there and the escrow is open. |
| `GateAndMoney.NextReleaseTakesMoneyExactlyWhen` | programs/arena/programs/arena/src/lib.rs:53-55 | After careful releases that is: if and only if the escrow is open and a request that read the lobby is outstanding. |
| `GateAndMoney.ASlowRequestPaysIntoAFinishedArena` | apps/api/src/cs2/series-orchestrator.ts:400-408 | A careful run from the start to a finished arena whose finisher never learned so; after the release a slow request pays a third entry there, which nothing ever pays out or gives back. |
| `PayoutService.NothingIsLostInTheSplit` | apps/api/src/payout/service.ts:67-71 | For any fee within the pool, fee and payouts make up the pool exactly. |
| `PayoutService.FeesAgree` | packages/contracts/src/onchain/index.ts:21-33 | The two-part fee is the program's single division. |
| `PayoutService.PlanIsPaidExactlyWhen` | programs/arena/programs/arena/src/lib.rs:84-150 | The amounts that the program works out from its own escrow and recorded pool are the recorded ones if and only if escrow less its fee is our pool less ours; with our recorded pool, if and only if the escrow holds it. |
| `PayoutService.SharesAreEven` | apps/api/src/payout/service.ts:28-71 | The fee is a tenth of the pool, rounded down; every winner is paid the same, and the first one also what cannot be shared. |
| `PayoutService.ProgramPaysEvenly` | programs/arena/programs/arena/src/lib.rs:102-145 | The program takes a tenth of its recorded pool and shares out the rest of its escrow in the same way; it refuses if that does not cover the tenth. |
| `PayoutRuns.EveryRunKeepsThePlan` | apps/api/src/payout/service.ts:73-128 | Over any sequence of failing calls: rows are on plan and unique, none is sent before the chain settled, by then the full plan was written, and the chain paid what the program makes of its escrow. |
| `PayoutRuns.AttemptKeeps` | apps/api/src/payout/service.ts:73-128 | In one call no row vanishes, changes its amount or stops being sent, and a settled chain stays settled. |
| `PayoutRuns.RetryCompletesThePlan` | apps/api/src/payout/service.ts:97-127 | Once the chain settled, a call without failures leaves every row of the full plan sent. |
| `PayoutRuns.SettledRunsPayThePlanExactlyWhen` | apps/api/src/payout/service.ts:48-71 | For the winners with wallets: every run keeps the plan, fee and plan are the pool, and a settled chain paid each of them the planned amount if and only if the escrow held the pool. |
| `PayoutRuns.SkipsMean` | apps/api/src/payout/service.ts:37-68 | A payout is left out exactly without winners, without an escrow, without a wallet to pay, or for a pool that is no exact number. |
| `PayoutElsewhere.CallMarksExactlyWhen` | apps/api/src/payout/service.ts:73-127 | A call turns a first row sent if and only if it gets through and its first mark is written, and the plan was complete before or it completed it over an open escrow. |
| `PayoutElsewhere.CallLeavesThePlanExactlyWhen` | apps/api/src/payout/service.ts:83-119 | With an escrow settled elsewhere, exactly which failures of a call leave the complete plan behind. |
| `PayoutElsewhere.InventedExactlyWhen` | apps/api/src/payout/service.ts:83-127 | Over every run for an escrow settled elsewhere, said of the number of winners and the failures of the calls alone: some row is ever reported as sent if and only if the calls so far fail so that no winner lacks a row, and the next one is answered and its first mark written. |
| `PayoutElsewhere.AFailedDeletionInventsAPlan` | apps/api/src/payout/service.ts:115-119 | Two calls that do so: the first fails to delete the plan it created. |
| `PayoutElsewhere.AnUnreachableChainInventsAPlan` | apps/api/src/payout/service.ts:100-113 | Two calls that do so without any failed deletion: the first does not reach the chain. |
| `PayoutRuns.PayoutDesk.SettleArena` | apps/api/src/payout/service.ts:42-129 | The whole call with its early exits, then the attempt function. |
| `PayoutRuns.PayoutDesk.PayOut` | apps/api/src/payout/service.ts:73-127 | The ordered effects of a call, any of which may fail or be committed although it reports failure. |
| `PlayerRanking.RankPlayers` | apps/api/src/leaderboard/player-ranking.ts:42-71 | The accumulating and ranking loops compute the ranking specification. |
| `PlayerRanking.RankingIgnoresTheOrder` | apps/api/src/leaderboard/player-ranking.ts:42-71 | Any permutation of the results gives the same ranking: rows, order and ranks. |
| `PlayerRanking.RankCountsTheBetter` | apps/api/src/leaderboard/player-ranking.ts:66-71 | A rank is one more than the number of strictly better players. |
| `PlayerRanking.RankingConserves` | apps/api/src/leaderboard/player-ranking.ts:44-62 | Points, arenas and rounds of the ranking are those of the results. |
| `PlayerRanking.RankingHasEveryPlayerOnce` | apps/api/src/leaderboard/player-ranking.ts:43-65 | Every player has exactly one row, with their own totals, below all better players. |
| `RankingOrder.TotalsMean` | apps/api/src/leaderboard/player-ranking.ts:43-62 | A row adds up its player's own scores and rounds and counts their results, those won and those at rank two. |
| `RankingOrder.RanksMean` | apps/api/src/leaderboard/player-ranking.ts:28-40 | Of two players the one with more points has the smaller rank; at equal points more wins, second places, rounds, then fewer arenas decide; ranks are equal exactly if all five are. |
| `RankingOrder.RankIsOneMoreThanTheHigher` | apps/api/src/leaderboard/player-ranking.ts:65-72 | A rank is one more than the number of players who place higher. |
| `RankingOrder.RowsStand` | apps/api/src/leaderboard/player-ranking.ts:64-65 | Rows stand by place, and in a full tie by user id. |
| `SseClient.FindsTheFirstBlank` | apps/api/src/live/sse-client.ts:74-82 | The boundary found is the first blank line of either kind; none is found iff there is none. |
| `SseClient.BoundaryNeverMoves` | apps/api/src/live/sse-client.ts:74-82 | A found boundary stays where it is when text is appended, across mixed line ends. |
| `SseClient.SplittingInTwo` | apps/api/src/live/sse-client.ts:55-71 | Splitting can stop at any point of the text and go on with what is left over. |
| `SseClient.StreamEvents` | apps/api/src/live/sse-client.ts:53-71 | The buffering loops deliver frames and leave a buffer that depend on the text alone, not on the chunks. |
| `SseClient.ParseFrame` | apps/api/src/live/sse-client.ts:85-105 | The field loop computes the parse function. |
| `SseRoundTrip.SplitsIntoFrames` | apps/api/src/live/sse-client.ts:55-82 | Rendered frames are split at exactly their own blank lines. |
| `SseRoundTrip.FrameRoundTrip` | apps/api/src/live/sse-client.ts:85-105 | A rendered frame is parsed back to its fields. |
| `SseRoundTrip.StreamRoundTrip` | apps/api/src/live/sse-client.ts:37-71 | Any chunking of any rendered frames delivers those frames in order and leaves nothing over. |
| `Planner.TargetWindows` | apps/api/src/round-engine/planner.ts:12-14 | The window list is the closed form 5..40, 50..85. |
| `Planner.PlanRoundActions` | apps/api/src/round-engine/planner.ts:74-116 | The catch-up loop ends by its measure and does exactly what is due, one action per unit of the measure. |
| `Planner.EarlierTickIsAbsorbed` | apps/api/src/round-engine/planner.ts:37-46 | An earlier tick before a later one changes nothing in the concatenated actions or the state. |
| `Planner.OnlyTheLastTickMatters` | apps/api/src/round-engine/planner.ts:74-116 | For ticks that do not run backwards, actions and state are those of the last tick alone. |
| `Planner.ActionsFollowTheSchedule` | apps/api/src/round-engine/planner.ts:81-113 | For any ticks the actions are a beginning of the schedule: opens and locks alternate over the windows in order. |
| `Planner.ScheduleRepeatsNothing` | apps/api/src/round-engine/planner.ts:81-113 | No action of the schedule comes twice. |
| `SoccerMeaning.WindowsFollowTheClock` | apps/api/src/round-engine/planner.ts:74-116 | With a clock that never runs backwards a window has been locked exactly if the clock has come to it, and opened exactly if the one before has been locked and its half has begun. |
| `SoccerSettlement.SettlementEngine.OnRoundLocked` | apps/api/src/settlement/engine.ts:67-71 | A repeated lock leaves the collected events alone. |
| `SoccerSettlement.SettlementEngine.HandleEvent` | apps/api/src/settlement/engine.ts:82-99 | Pushes the event onto every tracked window in place and settles those that it proves, in order. |
| `SoccerSettlement.SettlementEngine.HandleClock` | apps/api/src/settlement/engine.ts:101-111 | Settles the windows whose end the clock has passed, in order. |
| `SoccerBatch.IncrementalEqualsBatch` | apps/api/src/settlement/engine.ts:67-128 | Each locked window settles at most once, at the first closing input, with the resolution of every event from its lock to then; until then it is tracked with exactly those events. |
| `SoccerBatch.EarlyIsYesAndTheEndIsNo` | apps/api/src/settlement/engine.ts:98-110 | An early settlement is a yes, one at the window's end a no. |
| `MatchSignals.MatchSignalProducer.Process` | apps/api/src/ingestion/match-signal.ts:31-87 | The producer's closure variables follow the producer function, signals in order. |
| `MatchSignals.MinuteFallsBackExactlyWhen` | apps/api/src/ingestion/match-signal.ts:43-62 | After any messages, a period's minute falls back exactly when no message since the period came in has derived a minute and the next one derives less than was reported. |
| `MatchSignals.TheFrozenMinuteFallsBack` | apps/api/src/ingestion/match-signal.ts:58-62 | Such a case: a second half whose first message has no clock. |
| `MatchSignals.MinutesNeverFallBack` | apps/api/src/ingestion/match-signal.ts:51-57 | Once a period showed a minute, its minutes never fall back while it lasts. |
| `MatchSignals.SignalsAreChanges` | apps/api/src/ingestion/match-signal.ts:64-70 | A clock signal is sent exactly when it says something new, and then it is what was said last. |
| `MatchSignals.EachIncidentOnce` | apps/api/src/ingestion/incident-tracker.ts:24-40 | Two messages about one incident never both give an event. |
| `FeedMeaning.MessagesMean` | apps/api/src/ingestion/score-snapshot.ts:44-78 | What phase, minute and side a message tells; a correction tells none. |
| `FeedMeaning.ClockMeans` | apps/api/src/ingestion/match-signal.ts:43-76 | After any messages the minute told is the greatest shown in this stay of the phase, and it is passed on exactly if it is news. |
| `FeedMeaning.PossessionMeans` | apps/api/src/ingestion/match-signal.ts:78-82 | Who has the ball is passed on exactly if it is somebody else than told last. |
| `FeedMeaning.EventMeans` | apps/api/src/ingestion/incident-tracker.ts:21-41 | A message gives an event exactly if it is the first to confirm its incident, of a kind that is asked about, while a clock runs; the event says what the message says. |
| `SoccerFeed.NoWindowLocksTwice` | apps/api/src/round-engine/engine.ts:62-80 | On every raw feed the locks that reach settlement rise strictly by window. |
| `SoccerFeed.EveryWindowSettlesFromItsHistory` | apps/api/src/gateway/arena-runtime.ts:140-163 | On every raw feed each locked window is settled as its whole history after the lock says. |
| `SoccerFeed.FirstHalfWindowsCountNoSecondHalf` | apps/api/src/ingestion/match-signal.ts:43-85 | With the producer in front, up to the input that closes it a first-half window has only seen first-half events. |
| `SoccerMeaning.LockReachesExactlyWhen` | apps/api/src/round-engine/engine.ts:62-130 | On every raw feed the settlement is told of a window's lock exactly if the planner locked it and had opened it while the arena was not finished. |
| `SoccerMeaning.SettledExactlyWhen` | apps/api/src/settlement/resolve.ts:13-23 | On every raw feed a locked window settles with the first input after its lock that proves it or runs it out: yes and early for a confirmed event of the kind and team within its minutes, no when its time is over. |
| `Autopilot.EveryRunKeeps` | apps/api/src/cs2/autopilot.ts:88-255 | What holds under every interleaving of calls, beginnings, awaited results and the abort. |
| `Autopilot.OneTaskAtATime` | apps/api/src/cs2/autopilot.ts:245-254 | Tasks run one at a time, in the order of their calls. |
| `Autopilot.OneRunnerAtMost` | apps/api/src/cs2/autopilot.ts:102-122 | At most one runner is held or launching, and an idle body overlaps neither. |
| `Autopilot.QueueGoesOn` | apps/api/src/cs2/autopilot.ts:244-254 | A queued job can begin exactly if all before it are through. |
| `Autopilot.IdleExactlyWhen` | apps/api/src/cs2/autopilot.ts:112-122 | Idle work is taken on exactly while nothing is queued or under way and no runner is held. |
| `RunnerEnds.EveryRunKeepsEnds` | apps/api/src/cs2/autopilot.ts:138-239 | What every run keeps of the runners whose end is still to come: at most one of a series, and whoever is not held has left "active". |
| `RunnerEnds.EndTakesItsOwnRunner` | apps/api/src/cs2/autopilot.ts:220-239 | An end names a series only, and yet in every run it takes the held runner away exactly if it is that runner's own; a stale end changes nothing. |
| `Autopilot.RunnerAfterTheAbortExactlyWhen` | apps/api/src/cs2/series-runner.ts:86-163 | From the two checks of the start: after the abort a runner is still taken on exactly while one is on its way that had passed the second. |
| `Autopilot.ARunnerComesInAfterTheAbort` | apps/api/src/cs2/autopilot.ts:204-214 | A run of the model in which the abort falls between that check and the launcher; in the source only microtasks run in between, and none of them aborts. |
| `Autopilot.LaunchAfterTheAbortExactlyWhen` | apps/api/src/cs2/autopilot.ts:138-155 | After the abort a launch can still start exactly while a tick that began before it is looking for a series. |
| `Autopilot.ALaunchStartsAfterTheAbort` | apps/api/src/cs2/autopilot.ts:138-155 | A run in which a launch starts after the abort; no continuation of it ever takes a runner on. |

## Left out

- ArenaRuntime.Cs2RoundEngine.HandleOpen: the provider's choice of question is a parameter; pools, weights and texts are not modelled.
- ArenaRuntime.Cs2ArenaRuntime.HandleSettle: broadcasts, personal messages and queued round upserts are left out; they change no state the properties speak of.
- RoundRuns.EveryRunIsLegal: the engine starts without restored rounds; the restore path of a lobby arena is not modelled.
- TrackedRuns.SettlementsNeverMixRounds: conditions are always of the CS2 discipline, and a round's id is its number.
- ArenaRuns.NoEliminatedPlayerIsAhead: joins after the first settlement are excluded, as a later joiner starts with zero points.
- PerfectPlayer.PerfectPlayerStaysIn: rounds that were settled one after the other, from round one on; where the score falls back, rounds may settle out of order, and points then come as `ScoreRuns.SignalScores` says.
- ArenaRuns.WinnersRankFirst: stored results are a map by player; the display order of the leaderboard is left out.
- SeriesRuns.TraceIsBounded: the format is fixed and known; the reducer itself takes any change of it.
- NextSeries.LauncherTakesTheFirst: the random tie-break is an arbitrary function of the series.
- ArenaForecast.ForecastIsTheLauncherReplayed: candidates have distinct series ids, and ids are ordered naturals where the source compares strings.
- OrchestratorRuntime.Orchestrator.Poll: restore, the guards after a restore, score tracking of cancelled maps and map names are left out; skip and crash close are steps of `ArenaMoney`.
- OrchestratorRuntime.Orchestrator.OpenArena: the creation of the runtime, the catalog and match rows and the notifications are one write that may fail.
- OrchestratorRuntime.Orchestrator.MatchIsLive: the match row and the score tracking of a cancelled map are one write that may fail.
- OrchestratorRuntime.Orchestrator.CancelFor: the on-chain cancellation is a write that may fail; score tracking and the broadcast are left out.
- SeriesOrchestrator.RetryEndsTheSame: the paid entries stay as they are between a failed poll and its repetition, as behind a closed gate.
- ArenaMoney.NeverPaysAndRefunds: one arena; what the entry gate gives it is in `GateAndMoney`, and the orchestrator's retries are not part of that product.
- EntrySystem.ACarefulReleaseIsSafe: sufficient only, as the gate alone knows no escrow; the exact condition with the escrow is `GateAndMoney.ReleaseTakesMoneyExactlyWhen`.
- GateAndMoney.ReleaseTakesMoneyExactlyWhen: an on-chain arena; the payment and its pass are one step, and a request lasts as long as it likes.
- EntrySystem.LiveMeansTwoPaidForGood: the submit route only; the off-chain entry route bypasses the gate and is left out, as are prepared transactions and their expiry.
- PayoutService.PlanIsPaidExactlyWhen: the program's accounts are an escrow balance and its recorded pool; rent and signatures are left out.
- PayoutRuns.EveryRunKeepsThePlan: calls for one arena come one after another with the same winners and wallets; a row's id is the player's, as duplicates are refused before any write.
- PlayerRanking.RankPlayers: the library sort is an insertion sort by the same comparison; scores are integers.
- SseClient.StreamEvents: decoded text only; the JSON of a frame and its schema, and the request itself, are left out.
- SseRoundTrip.StreamRoundTrip: field values have no line breaks, which the format cannot carry within a line.
- MatchSignals.MatchSignalProducer.Process: clock seconds are whole numbers, where the feed allows fractions; action words are parsed; an amendment is not applied by the source either.
- SoccerFeed.EveryWindowSettlesFromItsHistory: one arena on the bus; who is finished when is a parameter, and a window's question is fixed before it opens.
- SoccerMeaning.LockReachesExactlyWhen: whether the arena is finished is fixed for one message, where the source asks before each of its actions.
- SoccerSettlement.SettlementEngine.HandleEvent: the players' side of a soccer settlement is the hardcore rule of `RoundOutcome` without its survival rule and is not composed here.
- RunnerEnds.EndTakesItsOwnRunner: a series that is no longer "active" never becomes so again, as no write of the service sets it back; the retained arenas of the last series are left out.
- Autopilot.RunnerAfterTheAbortExactlyWhen: a runner's start is three awaited stages; between the last check and the launcher any step may come, where in the source only other microtasks can.
- Screens, admin and operator clients, HTTP routing, WebSocket transport, sign-in, push delivery, catalog synchronisation: they would add no property of the game or the money.
- Database, feed and chain clients: calls whose outcome is a parameter.

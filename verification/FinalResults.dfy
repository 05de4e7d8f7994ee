/** What a finished arena has stored of every player, read off its own rows and rounds (cs2/arena-runtime.ts, leaderboard/service.ts). */
module FinalResults {
  import opened Cs2Types
  import opened Cs2Settle
  import opened RoundTracker
  import opened RoundEngine
  import opened Leaderboard
  import opened RoundOutcome
  import opened ArenaModel
  import opened ArenaFairness
  import opened ArenaFinish
  import opened ArenaRuns

  /** The settled rounds a player was in: all of them, or those up to the one that removed them. */
  function RoundsOf(rounds: map<int, Round>, row: Row): set<int> {
    set n | n in rounds && rounds[n].status == Settled && (row.eliminatedRound == None || n <= row.eliminatedRound.value)
  }

  ghost predicate CountsRounds(a: Arena) {
    a.winners.Some? ==>
      && |a.finishCalls| == 1 && a.finishCalls[0].results.Keys == a.board.rows.Keys
      && forall u | u in a.board.rows ::
           a.finishCalls[0].results[u].roundsPlayed == |RoundsOf(a.engine.rounds, a.board.rows[u])|
  }

  lemma SameCounts(a: Arena, b: Arena)
    requires CountsRounds(a) && b.winners == a.winners && b.finishCalls == a.finishCalls && b.board.rows == a.board.rows
    requires b.winners.Some? ==> b.engine.rounds == a.engine.rounds
    ensures CountsRounds(b)
  {
  }

  lemma FlushCounts(a: Arena, winners: seq<Uuid>)
    requires a.finishCalls == []
    ensures CountsRounds(FlushFinish(a, winners))
  {
    var rounds, rows := Finish(a.engine).rounds, a.board.rows;
    forall u | u in rows ensures SettledRounds(rounds, rows[u].eliminatedRound) == RoundsOf(rounds, rows[u]) {
    }
  }

  lemma SettlementCounts(a: Arena, n: int, correct: Answer)
    requires Undecided(a)
    ensures CountsRounds(HandleSettle(a, n, correct))
  {
    var (settled, pending) := ApplyOutcome(a, OutcomeOf(a, n, correct), n);
    if pending.Some? { FlushCounts(settled, pending.value); }
  }

  lemma SettleStepCounts(a: Arena, n: int, after: GameSnapshot)
    requires ArenaInv(a) && CanSettle(a.engine, n)
    ensures CountsRounds(SettleRoundWithBaseline(a, n, after))
  {
    var before := a.engine.baselines[n];
    match ResolveCs2Settlement(a.engine.rounds[n].condition, before, after)
    case Invalid(_) =>
    case Decided(answer) =>
      var e := MarkSettled(a.engine, n, before, after, answer);
      PlayersIgnoreEngine(a, e);
      SettlementCounts(a.(engine := e), n, answer);
      SameCounts(HandleSettle(a.(engine := e), n, answer), SettleRoundWithBaseline(a, n, after));
  }

  /** In a finished engine nothing is left to void. */
  lemma QuietVoids(e: Engine, through: Option<int>)
    requires Quiet(e)
    ensures VoidRemaining(e, through) == e
  {
    VoidNothing(e, e.order, through);
  }

  lemma MatchEndCounts(a: Arena)
    requires ArenaInv(a) && CountsRounds(a)
    ensures CountsRounds(Finalize(EngineMatchEnd(a)))
  {
    var settled := SettleLastStep(a);
    if settled != a { SettleStepCounts(a, DeriveRoundNumber(a.engine.lastLive.value) - 1, a.engine.lastLive.value); }
    SettleLastKeeps(a);
    if settled.winners.Some? { QuietVoids(settled.engine, None); }
    SameCounts(settled, EngineMatchEnd(a));
    EngineMatchEndKeeps(a);
    FinalizeCounts(EngineMatchEnd(a));
  }

  lemma FinalizeCounts(a: Arena)
    requires ArenaInv(a) && CountsRounds(a)
    ensures CountsRounds(Finalize(a))
  {
    var (board, pending) := FinalizeBoard(a.board);
    if a.winners.None? { FlushCounts(a.(board := board), pending.value); }
  }

  lemma LockCounts(a: Arena, n: int, question: Condition)
    requires ArenaInv(a) && CountsRounds(a)
    ensures CountsRounds(a.(engine := HandleRoundLock(a.engine, n, question)))
  {
    if a.winners.Some? && n !in a.engine.rounds { QuietVoids(a.engine, Some(n)); }
    SameCounts(a, a.(engine := HandleRoundLock(a.engine, n, question)));
  }

  lemma StepCounts(a: Arena, step: ArenaStep)
    requires ArenaInv(a) && CountsRounds(a)
    ensures CountsRounds(Step(a, step))
  {
    match step
    case JoinStep(u) => JoinCounts(a, u);
    case SubmitStep(_, _, _) => SameCounts(a, Step(a, step));
    case OpenOneStep(_) => SameCounts(a, Step(a, step));
    case SignalStep(signal, question) =>
      match signal {
        case SnapshotSeen(_) => SameCounts(a, Step(a, step));
        case RoundLock(n) => LockCounts(a, n, question);
        case RoundEnd(n, after) => if CanSettle(a.engine, n) { SettleStepCounts(a, n, after); }
        case MatchEnd => MatchEndCounts(a);
      }
  }

  lemma JoinCounts(a: Arena, u: Uuid)
    requires ArenaInv(a) && CountsRounds(a)
    ensures CountsRounds(Join(a, u))
  {
    JoinAddsAtMostOne(a, u);
    if a.winners.Some? { SameCounts(a, Join(a, u)); }
  }

  /**
   * In every run, once there are winners, one result list is stored: each player's points, a place behind everybody with
   * more, whether they won, and the number of settled rounds they were in.
   */
  lemma {:induction false} ResultsMean(
    mode: Mode, teams: (Uuid, Uuid), roster: seq<Uuid>, question: Condition, steps: seq<ArenaStep>, u: Uuid)
    ensures var a := Run(NewArena(mode, teams, roster, question), steps);
            a.winners.Some? && u in a.board.rows ==>
              && |a.finishCalls| == 1 && u in a.finishCalls[0].results
              && var r, row, rows := a.finishCalls[0].results[u], a.board.rows[u], a.board.rows;
                 && r.score == row.score && r.rank == 1 + |set v | v in rows && rows[v].score > row.score|
                 && (r.won <==> row.status == Winner) && (r.won <==> u in a.winners.value)
                 && r.roundsPlayed == |RoundsOf(a.engine.rounds, row)|
  {
    EveryArenaIsSound(mode, teams, roster, question, steps);
    EveryRunCounts(mode, teams, roster, question, steps);
    var a := Run(NewArena(mode, teams, roster, question), steps);
    if a.winners.Some? && u in a.board.rows {
      assert Better(a.board.rows, a.board.rows[u].score)
          == set v | v in a.board.rows && a.board.rows[v].score > a.board.rows[u].score;
    }
  }

  lemma {:induction false} EveryRunCounts(
    mode: Mode, teams: (Uuid, Uuid), roster: seq<Uuid>, question: Condition, steps: seq<ArenaStep>)
    ensures CountsRounds(Run(NewArena(mode, teams, roster, question), steps))
  {
    var start := NewArena(mode, teams, roster, question);
    if steps == [] {
      SeatingFinishesNothing(NewArena(mode, teams, [], question), roster);
    } else {
      EveryRunCounts(mode, teams, roster, question, steps[..|steps| - 1]);
      EveryArenaIsSound(mode, teams, roster, question, steps[..|steps| - 1]);
      StepCounts(Run(start, steps[..|steps| - 1]), steps[|steps| - 1]);
    }
  }

  lemma {:induction false} SeatingFinishesNothing(a: Arena, roster: seq<Uuid>)
    ensures SeatAll(a, roster).winners == a.winners
  {
    if roster != [] { SeatingFinishesNothing(a, roster[..|roster| - 1]); }
  }
}

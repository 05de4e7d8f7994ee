/**
 * One CS2 arena as a value: the round engine, the leaderboard, the player store and the runtime's own
 * fields (cs2/arena-runtime.ts), with the re-entrant finish inside a settlement. The classes of
 * ArenaRuntime.dfy are proved against these functions.
 */
module ArenaModel {
  import opened Cs2Types
  import opened Cs2Settle
  import opened RoundTracker
  import opened RoundEngine
  import opened RoundOutcome
  import opened Leaderboard

  datatype Mode = Classic | Hardcore

  /** `rank` goes by points only; `roundsPlayed` counts settled rounds up to the elimination. */
  datatype ArenaResult = ArenaResult(score: nat, rank: nat, won: bool, roundsPlayed: nat)

  /** One `finishArena` call to the persistence, with the results it stores and the payout's winners. */
  datatype FinishCall = FinishCall(winners: seq<Uuid>, results: map<Uuid, ArenaResult>)

  /** `status` and `seats` are the player store, in insertion order; `answers` the prediction store by round. */
  datatype Arena = Arena(
    mode: Mode,
    engine: Engine,
    board: Board,
    status: map<Uuid, PlayerStatus>,
    seats: seq<Uuid>,
    answers: map<int, Answers>,
    finalCircleFrom: Option<int>,
    winners: Option<seq<Uuid>>,
    finishCalls: seq<FinishCall>)

  // ----- joining and answering

  function Join(a: Arena, userId: Uuid): Arena {
    var seated :=
      if userId in a.status then a
      else a.(status := a.status[userId := Active], seats := a.seats + [userId]);
    seated.(board := AddRow(a.board, userId))
  }

  datatype SubmitOutcome = Accepted | RoundNotFound | RoundLocked | NotParticipant | PlayerEliminated

  function SubmitOutcomeOf(a: Arena, userId: Uuid, n: int): SubmitOutcome {
    if n !in a.engine.rounds then RoundNotFound
    else if a.engine.rounds[n].status != Open then RoundLocked
    else if userId !in a.status then NotParticipant
    else if a.status[userId] != Active then PlayerEliminated
    else Accepted
  }

  function AnswersFor(a: Arena, n: int): Answers {
    if n in a.answers then a.answers[n] else map[]
  }

  function SubmitAnswer(a: Arena, userId: Uuid, n: int, answer: Answer): Arena {
    if SubmitOutcomeOf(a, userId, n).Accepted? then
      a.(answers := a.answers[n := AnswersFor(a, n)[userId := answer]])
    else a
  }

  // ----- settling

  function ActiveSeats(status: map<Uuid, PlayerStatus>, seats: seq<Uuid>): seq<Uuid> {
    if seats == [] then []
    else
      var last := seats[|seats| - 1];
      ActiveSeats(status, seats[..|seats| - 1]) + if last in status && status[last].Active? then [last] else []
  }

  function ScoreOf(b: Board, userId: Uuid): nat {
    if userId in b.rows then b.rows[userId].score else 0
  }

  function Contenders(a: Arena): (players: seq<Contender>)
    ensures |players| == |ActiveSeats(a.status, a.seats)|
  {
    var ids := ActiveSeats(a.status, a.seats);
    seq(|ids|, i requires 0 <= i < |ids| => Contender(ids[i], ScoreOf(a.board, ids[i])))
  }

  function StageOf(a: Arena): Stage {
    if a.finalCircleFrom.Some? then FinalCircle else ZoneStage
  }

  function OutcomeOf(a: Arena, n: int, correct: Answer): Outcome {
    if a.mode.Classic? then ResolveClassicRound(n, StageOf(a), Contenders(a), AnswersFor(a, n), correct)
    else HardcoreRound(ActiveSeats(a.status, a.seats), AnswersFor(a, n), correct, true)
  }

  function SetStatuses(status: map<Uuid, PlayerStatus>, results: seq<PlayerResult>): map<Uuid, PlayerStatus> {
    if results == [] then status
    else SetStatuses(status, results[..|results| - 1])[results[|results| - 1].userId := results[|results| - 1].status]
  }

  function SetWinners(status: map<Uuid, PlayerStatus>, winners: seq<Uuid>): map<Uuid, PlayerStatus> {
    if winners == [] then status
    else SetWinners(status, winners[..|winners| - 1])[winners[|winners| - 1] := Winner]
  }

  function Better(rows: map<Uuid, Row>, score: nat): set<Uuid> {
    set u | u in rows && rows[u].score > score
  }

  function SettledRounds(rounds: map<int, Round>, through: Option<int>): set<int> {
    set n | n in rounds && rounds[n].status == Settled && (through.None? || n <= through.value)
  }

  function PlayerResults(rows: map<Uuid, Row>, rounds: map<int, Round>, winners: seq<Uuid>): map<Uuid, ArenaResult> {
    map u | u in rows ::
      ArenaResult(rows[u].score, 1 + |Better(rows, rows[u].score)|, u in winners,
                  |SettledRounds(rounds, rows[u].eliminatedRound)|)
  }

  /** Winners are decided: pending rounds are voided before the results are stored. */
  function FlushFinish(a: Arena, winners: seq<Uuid>): Arena {
    var engine := Finish(a.engine);
    a.(engine := engine,
       winners := Some(winners),
       status := SetWinners(a.status, winners),
       finishCalls := a.finishCalls + [FinishCall(winners, PlayerResults(a.board.rows, engine.rounds, winners))])
  }

  function FlushIfPending(a: Arena, pending: Option<seq<Uuid>>): Arena {
    if pending.None? then a else FlushFinish(a, pending.value)
  }

  /** The players' results of round `n`, before a finish is flushed; the second part is the pending winners. */
  function ApplyOutcome(a: Arena, o: Outcome, n: int): (Arena, Option<seq<Uuid>>) {
    var (board, pending) := SettleBoard(a.board, o.results, n);
    (a.(status := SetStatuses(a.status, o.results),
        board := board,
        finalCircleFrom :=
          if a.mode.Classic? && o.stage.FinalCircle? && a.finalCircleFrom.None? then Some(n + 1) else a.finalCircleFrom),
     pending)
  }

  function HandleSettle(a: Arena, n: int, correct: Answer): Arena {
    var (settled, pending) := ApplyOutcome(a, OutcomeOf(a, n, correct), n);
    FlushIfPending(settled, pending)
  }

  function SettleRound(a: Arena, n: int, before: GameSnapshot, after: GameSnapshot): Arena
    requires n in a.engine.rounds
  {
    match ResolveCs2Settlement(a.engine.rounds[n].condition, before, after)
    case Invalid(reason) => a.(engine := VoidRound(a.engine, n, Some(reason)))
    case Decided(answer) => HandleSettle(a.(engine := MarkSettled(a.engine, n, before, after, answer)), n, answer)
  }

  function SettleRoundWithBaseline(a: Arena, n: int, after: GameSnapshot): Arena
    requires CanSettle(a.engine, n)
  {
    var settled := SettleRound(a, n, a.engine.baselines[n], after);
    settled.(engine := settled.engine.(baselines := settled.engine.baselines - {n}))
  }

  // ----- signals

  function RoundEndStep(a: Arena, n: int, after: GameSnapshot): Arena {
    if CanSettle(a.engine, n) then SettleRoundWithBaseline(a, n, after) else a
  }

  function SettleLastStep(a: Arena): Arena {
    if a.engine.lastLive.Some? && ProvenAtEnd(a.engine, DeriveRoundNumber(a.engine.lastLive.value) - 1) then
      SettleRoundWithBaseline(a, DeriveRoundNumber(a.engine.lastLive.value) - 1, a.engine.lastLive.value)
    else a
  }

  /** The engine's part of a match end. */
  function EngineMatchEnd(a: Arena): Arena {
    var settled := SettleLastStep(a);
    settled.(engine := VoidRemaining(settled.engine, None).(lastLive := None, baselines := map[]))
  }

  /** The second subscriber's part: everyone still standing wins, unless somebody already has. */
  function Finalize(a: Arena): Arena {
    var (board, pending) := FinalizeBoard(a.board);
    FlushIfPending(a.(board := board), pending)
  }

  function OnSignal(a: Arena, signal: Signal, question: Condition): Arena {
    match signal
    case RoundEnd(n, after) => RoundEndStep(a, n, after)
    case MatchEnd => Finalize(EngineMatchEnd(a))
    case _ => a.(engine := Apply(a.engine, signal, question, false))
  }

  datatype ArenaStep =
    | JoinStep(userId: Uuid)
    | SubmitStep(userId: Uuid, number: int, answer: Answer)
    | SignalStep(signal: Signal, question: Condition)
    | OpenOneStep(question: Condition)

  function Step(a: Arena, step: ArenaStep): Arena {
    match step
    case JoinStep(u) => Join(a, u)
    case SubmitStep(u, n, answer) => SubmitAnswer(a, u, n, answer)
    case SignalStep(signal, question) => OnSignal(a, signal, question)
    case OpenOneStep(question) => a.(engine := HandleOpen(a.engine, 1, question))
  }

  /** A lobby arena with its restored roster, everyone active, and round one opened at once. */
  function NewArena(mode: Mode, teams: (Uuid, Uuid), roster: seq<Uuid>, question: Condition): Arena {
    SeatAll(Arena(mode, HandleOpen(New(Some(teams)), 1, question), Board(map[], [], false), map[], [], map[], None, None, []), roster)
  }

  function SeatAll(a: Arena, roster: seq<Uuid>): Arena {
    if roster == [] then a else Join(SeatAll(a, roster[..|roster| - 1]), roster[|roster| - 1])
  }

  function Run(a: Arena, steps: seq<ArenaStep>): Arena {
    if steps == [] then a else Step(Run(a, steps[..|steps| - 1]), steps[|steps| - 1])
  }
}

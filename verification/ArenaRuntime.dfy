/**
 * The round engine and the arena runtime as objects that call each other (cs2/round-engine.ts,
 * cs2/arena-runtime.ts), each method proved against ArenaModel. A settlement calls the runtime back,
 * and the runtime may call the engine's `VoidRemaining` before that settlement returns.
 */
module ArenaRuntime {
  import opened Cs2Types
  import opened Cs2Settle
  import opened RoundTracker
  import opened RoundEngine
  import opened RoundOutcome
  import opened Leaderboard
  import opened ArenaModel
  import opened ArenaRuns

  class Cs2RoundEngine {
    var rounds: map<int, Round>
    var order: seq<int>
    var lockSnapshotByRound: map<int, GameSnapshot>
    var lastLiveSnapshot: Option<GameSnapshot>
    var teams: Option<(Uuid, Uuid)>
    var owner: Cs2ArenaRuntime?
    ghost var log: seq<RoundEvent>

    ghost function EngineModel(): Engine reads this, owner {
      Engine(rounds, order, lockSnapshotByRound, lastLiveSnapshot, teams, owner != null && owner.winners.Some?, log)
    }

    /** Engine, owner and leaderboard form one arena, and no callback is under way. */
    ghost predicate Wired() reads this, owner, if owner == null then {} else {owner.leaderboard} {
      && owner != null && owner.roundEngine == this
      && owner.leaderboard.pendingByRound == map[] && owner.pendingWinners.None?
    }

    constructor (teams: (Uuid, Uuid))
      ensures rounds == map[] && order == [] && lockSnapshotByRound == map[] && lastLiveSnapshot.None?
      ensures this.teams == Some(teams) && owner == null && log == []
    {
      rounds, order, lockSnapshotByRound, lastLiveSnapshot := map[], [], map[], None;
      this.teams, owner, log := Some(teams), null, [];
    }

    method HandleOpen(n: int, question: Condition) returns (threw: bool)
      modifies this
      ensures EngineModel() == RoundEngine.HandleOpen(old(EngineModel()), n, question) && owner == old(owner)
      ensures threw == OpenThrows(old(EngineModel()), n)
    {
      if n in rounds { return false; }
      if teams.None? { return true; }
      rounds, order := rounds[n := Round(question, Open, None)], order + [n];
      log := log + [Opened(n)];
      threw := false;
    }

    method VoidRound(n: int, reason: Option<InvalidReason>)
      requires n in rounds
      modifies this
      ensures EngineModel() == RoundEngine.VoidRound(old(EngineModel()), n, reason)
      ensures owner == old(owner) && teams == old(teams)
    {
      rounds := rounds[n := rounds[n].(status := Voided)];
      lockSnapshotByRound := lockSnapshotByRound - {n};
      log := log + [WasVoided(n, reason)];
    }

    method VoidRemaining(through: Option<int>)
      modifies this
      ensures EngineModel() == RoundEngine.VoidRemaining(old(EngineModel()), through)
      ensures owner == old(owner) && teams == old(teams)
    {
      var numbers := order;
      for i := 0 to |numbers|
        invariant owner == old(owner) && teams == old(teams)
        invariant VoidEach(EngineModel(), numbers[i..], through) == RoundEngine.VoidRemaining(old(EngineModel()), through)
      {
        var n := numbers[i];
        assert numbers[i..][0] == n && numbers[i..][1..] == numbers[i + 1..];
        if n in rounds && InScope(n, through) && Pending(rounds[n]) {
          VoidRound(n, None);
        }
      }
    }

    /** The transition callback runs, and may finish the arena, before this method returns. */
    method Settle(n: int, before: GameSnapshot, after: GameSnapshot)
      requires Wired() && n in rounds
      modifies this, owner, owner.leaderboard
      ensures Wired() && owner == old(owner)
      ensures owner.Model() == SettleRound(old(owner.Model()), n, before, after)
    {
      match ResolveCs2Settlement(rounds[n].condition, before, after) {
        case Invalid(reason) =>
          VoidRound(n, Some(reason));
        case Decided(answer) =>
          rounds := rounds[n := rounds[n].(status := Settled, answer := Some(answer))];
          log := log + [WasSettled(n, before, after, answer)];
          owner.HandleSettle(n, answer);
      }
    }

    method HandleRoundLock(n: int, question: Condition) returns (threw: bool)
      requires Wired()
      modifies this
      ensures EngineModel() == RoundEngine.HandleRoundLock(old(EngineModel()), n, question) && owner == old(owner)
      ensures threw ==> old(teams).None?
    {
      threw := false;
      if n !in rounds {
        VoidRemaining(Some(n));
        if owner.winners.None? { threw := HandleOpen(n + 1, question); }
        return;
      }
      if rounds[n].status == Open {
        rounds := rounds[n := rounds[n].(status := Locked)];
        log := log + [WasLocked(n)];
      }
      if lastLiveSnapshot.Some? {
        lockSnapshotByRound := lockSnapshotByRound[n := lastLiveSnapshot.value];
      }
      if owner.winners.Some? { return; }
      threw := HandleOpen(n + 1, question);
    }

    method HandleRoundEnd(n: int, after: GameSnapshot)
      requires Wired()
      modifies this, owner, owner.leaderboard
      ensures Wired() && owner == old(owner)
      ensures owner.Model() == RoundEndStep(old(owner.Model()), n, after)
    {
      if n !in rounds || rounds[n].status != Locked || n !in lockSnapshotByRound { return; }
      Settle(n, lockSnapshotByRound[n], after);
      lockSnapshotByRound := lockSnapshotByRound - {n};
    }

    /** Settles only a proven final transition, then voids what is left. */
    method HandleMatchEnd()
      requires Wired() && ArenaInv(owner.Model())
      modifies this, owner, owner.leaderboard
      ensures Wired() && owner == old(owner)
      ensures owner.Model() == EngineMatchEnd(old(owner.Model()))
    {
      SettleProvenRounds();
      VoidRemaining(None);
      lastLiveSnapshot := None;
      lockSnapshotByRound := map[];
    }

    /** Walks all rounds; proved to settle just the one the last snapshot proves. */
    method SettleProvenRounds()
      requires Wired() && ArenaInv(owner.Model())
      modifies this, owner, owner.leaderboard
      ensures Wired() && owner == old(owner)
      ensures owner.Model() == SettleLastStep(old(owner.Model()))
    {
      ghost var start := owner.Model();
      ghost var last := if lastLiveSnapshot.Some? then DeriveRoundNumber(lastLiveSnapshot.value) - 1 else 0;
      ghost var done := SettleLastStep(start);
      SettleLastIsLast(start);
      var numbers := order;
      for i := 0 to |numbers|
        invariant Wired() && owner == old(owner) && start.engine.order == numbers
        invariant owner.Model() == if last in numbers[..i] then done else start
      {
        var n := numbers[i];
        assert numbers[..i + 1] == numbers[..i] + [n];
        SettleIfProven(n);
      }
      assert numbers[..|numbers|] == numbers;
    }

    /** The check of one round in that walk. */
    method SettleIfProven(n: int)
      requires Wired()
      modifies this, owner, owner.leaderboard
      ensures Wired() && owner == old(owner)
      ensures var a := old(owner.Model());
              owner.Model() == if ProvenAtEnd(a.engine, n) then SettleRoundWithBaseline(a, n, a.engine.lastLive.value) else a
    {
      if n in rounds && rounds[n].status == Locked && n in lockSnapshotByRound && lastLiveSnapshot.Some?
         && DeriveRoundNumber(lockSnapshotByRound[n]) == n && DeriveRoundNumber(lastLiveSnapshot.value) == n + 1
      {
        Settle(n, lockSnapshotByRound[n], lastLiveSnapshot.value);
        lockSnapshotByRound := lockSnapshotByRound - {n};
      }
    }

    method Apply(signal: Signal, question: Condition) returns (threw: bool)
      requires Wired() && ArenaInv(owner.Model())
      modifies this, owner, owner.leaderboard
      ensures Wired() && owner == old(owner)
      ensures owner.Model() == if signal.MatchEnd? then EngineMatchEnd(old(owner.Model()))
                               else OnSignal(old(owner.Model()), signal, question)
      ensures threw ==> old(teams).None?
    {
      threw := false;
      match signal {
        case SnapshotSeen(s) =>
          lastLiveSnapshot := Some(s);
          teams := Some((s.first.teamId, s.second.teamId));
        case RoundLock(n) =>
          threw := HandleRoundLock(n, question);
        case RoundEnd(n, after) =>
          HandleRoundEnd(n, after);
        case MatchEnd =>
          HandleMatchEnd();
      }
    }
  }

  /** After the proven round is settled, no round is proven; without one, nothing changes. */
  lemma SettleLastIsLast(a: Arena)
    requires ArenaInv(a)
    ensures var done := SettleLastStep(a);
            && done.engine.order == a.engine.order && done.engine.lastLive == a.engine.lastLive
            && (forall n | ProvenAtEnd(a.engine, n) :: n in a.engine.order && done == SettleRoundWithBaseline(a, n, a.engine.lastLive.value))
            && (forall n :: !ProvenAtEnd(done.engine, n))
            && ((forall n :: !ProvenAtEnd(a.engine, n)) ==> done == a)
  {
    if SettleLastStep(a) != a {
      var n := DeriveRoundNumber(a.engine.lastLive.value) - 1;
      SettleProjects(a, n, a.engine.baselines[n], a.engine.lastLive.value);
      SettleKeeps(a.engine, n, a.engine.baselines[n], a.engine.lastLive.value, SettleLastStep(a).winners.Some?);
    }
  }

  lemma OneResultMore(status: map<Uuid, PlayerStatus>, results: seq<PlayerResult>, i: nat)
    requires i < |results|
    ensures results[..i + 1] == results[..i] + [results[i]]
    ensures SetStatuses(status, results[..i + 1]) == SetStatuses(status, results[..i])[results[i].userId := results[i].status]
  {
    assert results[..i + 1][..i] == results[..i];
  }

  class Cs2ArenaRuntime {
    const mode: Mode
    const roundEngine: Cs2RoundEngine
    const leaderboard: LeaderboardService
    var status: map<Uuid, PlayerStatus>
    var seats: seq<Uuid>
    var answers: map<int, Answers>
    var finalCircleFromRound: Option<int>
    var pendingPlayerStatus: seq<PlayerResult>
    var pendingWinners: Option<seq<Uuid>>
    var winners: Option<seq<Uuid>>
    var finishCalls: seq<FinishCall>

    ghost function Model(): Arena reads this, roundEngine, roundEngine.owner, leaderboard {
      Arena(mode, roundEngine.EngineModel(), leaderboard.Model(), status, seats, answers,
            finalCircleFromRound, winners, finishCalls)
    }

    ghost predicate Valid() reads this, roundEngine, roundEngine.owner, leaderboard,
                                  if roundEngine.owner == null then {} else {roundEngine.owner.leaderboard}
    {
      roundEngine.owner == this && roundEngine.Wired() && ArenaInv(Model())
    }

    constructor (mode: Mode, teams: (Uuid, Uuid), roster: seq<Uuid>)
      ensures roundEngine.owner == this && roundEngine.Wired() && fresh(roundEngine) && fresh(leaderboard)
      ensures Model() == SeatAll(Unopened(mode, teams), roster)
    {
      this.mode := mode;
      roundEngine := new Cs2RoundEngine(teams);
      leaderboard := new LeaderboardService(roster);
      status, seats, answers, finalCircleFromRound := map[], [], map[], None;
      pendingPlayerStatus, pendingWinners, winners, finishCalls := [], None, None, [];
      new;
      roundEngine.owner := this;
      ghost var empty := Unopened(mode, teams);
      SeatingSplits(empty, []);
      for i := 0 to |roster|
        invariant roundEngine.owner == this && roundEngine.Wired()
        invariant Model() == SeatAll(empty, roster[..i]).(board := leaderboard.Model())
        invariant leaderboard.Model() == Seat(Board(map[], [], false), roster)
      {
        assert roster[..i + 1][..i] == roster[..i];
        if roster[i] !in status {
          status, seats := status[roster[i] := Active], seats + [roster[i]];
        }
      }
      assert roster[..|roster|] == roster;
      SeatingSplits(empty, roster);
    }

    /** An arena as the orchestrator opens it: created, then round one opened at once. */
    static method OpenArena(mode: Mode, teams: (Uuid, Uuid), roster: seq<Uuid>, question: Condition)
      returns (runtime: Cs2ArenaRuntime)
      ensures fresh(runtime) && runtime.Valid() && runtime.Model() == NewArena(mode, teams, roster, question)
    {
      runtime := new Cs2ArenaRuntime(mode, teams, roster);
      OpeningTheSeated(mode, teams, roster, question);
      var threw := runtime.roundEngine.HandleOpen(1, question);
    }

    method OpenRoundOne(question: Condition) returns (threw: bool)
      requires Valid()
      modifies roundEngine
      ensures Valid() && Model() == ArenaModel.Step(old(Model()), OpenOneStep(question))
    {
      StepKeeps(Model(), OpenOneStep(question));
      threw := roundEngine.HandleOpen(1, question);
    }

    method Join(userId: Uuid)
      requires Valid()
      modifies this, leaderboard
      ensures Valid() && Model() == ArenaModel.Join(old(Model()), userId)
    {
      StepKeeps(Model(), JoinStep(userId));
      if userId !in status {
        status, seats := status[userId := Active], seats + [userId];
      }
      leaderboard.AddPlayer(userId);
    }

    method SubmitAnswer(userId: Uuid, n: int, answer: Answer) returns (outcome: SubmitOutcome)
      requires Valid()
      modifies this
      ensures Valid() && Model() == ArenaModel.SubmitAnswer(old(Model()), userId, n, answer)
      ensures outcome == SubmitOutcomeOf(old(Model()), userId, n)
    {
      StepKeeps(Model(), SubmitStep(userId, n, answer));
      if n !in roundEngine.rounds { return RoundNotFound; }
      if roundEngine.rounds[n].status != Open { return RoundLocked; }
      if userId !in status { return NotParticipant; }
      if status[userId] != Active { return PlayerEliminated; }
      var forRound := if n in answers then answers[n] else map[];
      answers := answers[n := forRound[userId := answer]];
      outcome := Accepted;
    }

    /** One signal through the bus: first the engine, then, at a match end, the runtime's own subscription. */
    method Publish(signal: Signal, question: Condition) returns (threw: bool)
      requires Valid()
      modifies this, roundEngine, leaderboard
      ensures Valid() && Model() == OnSignal(old(Model()), signal, question)
    {
      SignalKeeps(Model(), signal, question);
      threw := roundEngine.Apply(signal, question);
      if signal.MatchEnd? {
        pendingWinners := leaderboard.Finalize();
        FlushFinishIfPending();
      }
    }

    /** Scores every active player, feeds store and leaderboard, then finishes the arena if this decided it. */
    method HandleSettle(n: int, correct: Answer)
      requires roundEngine.owner == this && roundEngine.Wired()
      modifies this, roundEngine, leaderboard
      ensures roundEngine.owner == this && roundEngine.Wired()
      ensures Model() == ArenaModel.HandleSettle(old(Model()), n, correct)
    {
      if mode.Classic? {
        SettleClassic(n, correct);
      } else {
        ApplyRoundOutcome(n, correct);
      }
      pendingWinners := leaderboard.OnRoundSettled(n);
      pendingPlayerStatus := [];
      FlushFinishIfPending();
    }

    method SettleClassic(n: int, correct: Answer)
      requires leaderboard.pendingByRound == map[] && mode.Classic?
      modifies this`status, this`pendingPlayerStatus, this`finalCircleFromRound, leaderboard`pendingByRound
      ensures var o := OutcomeOf(old(Model()), n, correct);
              && status == SetStatuses(old(status), o.results)
              && finalCircleFromRound == (if o.stage.FinalCircle? && old(finalCircleFromRound).None? then Some(n + 1)
                                          else old(finalCircleFromRound))
              && leaderboard.PendingFor(n) == o.results && leaderboard.pendingByRound.Keys <= {n}
    {
      var o := ClassicOutcome(n, correct);
      for i := 0 to |o.results|
        invariant status == SetStatuses(old(status), o.results[..i]) && finalCircleFromRound == old(finalCircleFromRound)
        invariant leaderboard.PendingFor(n) == o.results[..i] && leaderboard.pendingByRound.Keys <= {n}
      {
        RecordResult(n, o.results[i]);
        OneResultMore(old(status), o.results, i);
      }
      assert o.results[..|o.results|] == o.results;
      if o.stage.FinalCircle? && finalCircleFromRound.None? {
        finalCircleFromRound := Some(n + 1);
      }
    }

    /** The scores before this round come from the leaderboard. */
    method ClassicOutcome(n: int, correct: Answer) returns (o: Outcome)
      requires mode.Classic?
      ensures o == OutcomeOf(Model(), n, correct)
    {
      var ids, rows := ActiveSeats(status, seats), leaderboard.rows;
      var players := seq(|ids|, i requires 0 <= i < |ids| => Contender(ids[i], if ids[i] in rows then rows[ids[i]].score else 0));
      assert players == Contenders(Model());
      var stage := if finalCircleFromRound.None? then ZoneStage else FinalCircle;
      o := ResolveClassicRound(n, stage, players, if n in answers then answers[n] else map[], correct);
    }

    /** The hardcore loop: judges and records one active player at a time. */
    method ApplyRoundOutcome(n: int, correct: Answer)
      requires leaderboard.pendingByRound == map[] && mode.Hardcore?
      modifies this`status, this`pendingPlayerStatus, leaderboard`pendingByRound
      ensures var o := OutcomeOf(old(Model()), n, correct);
              && status == SetStatuses(old(status), o.results)
              && leaderboard.PendingFor(n) == o.results && leaderboard.pendingByRound.Keys <= {n}
    {
      var forRound: Answers := if n in answers then answers[n] else map[];
      var active := ActiveSeats(status, seats);
      var rule := NoCorrectAnswers(active, forRound, correct);
      ghost var results := HardcoreRound(active, forRound, correct, true).results;
      for i := 0 to |active|
        invariant status == SetStatuses(old(status), results[..i])
        invariant leaderboard.PendingFor(n) == results[..i] && leaderboard.pendingByRound.Keys <= {n}
      {
        var answer := AnswerOf(forRound, active[i]);
        var result := Judge(answer, correct);
        RecordResult(n, PlayerResult(active[i], answer, result, if result.Correct? then 1 else 0, HardcoreStatus(result, rule)));
        OneResultMore(old(status), results, i);
      }
      assert results[..|active|] == results;
    }

    method RecordResult(n: int, r: PlayerResult)
      modifies this`status, this`pendingPlayerStatus, leaderboard`pendingByRound
      ensures status == old(status)[r.userId := r.status]
      ensures leaderboard.PendingFor(n) == old(leaderboard.PendingFor(n)) + [r]
      ensures leaderboard.pendingByRound.Keys == old(leaderboard.pendingByRound.Keys) + {n}
    {
      status := status[r.userId := r.status];
      pendingPlayerStatus := pendingPlayerStatus + [r];
      leaderboard.OnPlayerResult(n, r);
    }

    method FlushFinishIfPending()
      requires roundEngine.owner == this && leaderboard.pendingByRound == map[]
      modifies this, roundEngine
      ensures roundEngine.owner == this && roundEngine.Wired()
      ensures Model() == FlushIfPending(old(Model()), old(pendingWinners))
    {
      if pendingWinners.None? { return; }
      var won := pendingWinners.value;
      pendingWinners := None;
      winners := Some(won);
      roundEngine.VoidRemaining(None);
      for i := 0 to |won|
        invariant roundEngine.owner == this && pendingWinners.None?
        invariant Model() == old(Model()).(
          engine := Finish(old(roundEngine.EngineModel())), winners := Some(won), status := SetWinners(old(status), won[..i]))
      {
        assert won[..i + 1][..i] == won[..i];
        status := status[won[i] := Winner];
      }
      assert won[..|won|] == won;
      finishCalls := finishCalls + [FinishCall(won, PlayerResults(leaderboard.rows, roundEngine.rounds, won))];
    }
  }

  lemma {:induction false} SeatingSplits(a: Arena, roster: seq<Uuid>)
    ensures SeatAll(a, roster).board == Seat(a.board, roster)
  {
    if roster != [] { SeatingSplits(a, roster[..|roster| - 1]); }
  }

  ghost function Unopened(mode: Mode, teams: (Uuid, Uuid)): Arena {
    Arena(mode, New(Some(teams)), Board(map[], [], false), map[], [], map[], None, None, [])
  }

  lemma OpeningTheSeated(mode: Mode, teams: (Uuid, Uuid), roster: seq<Uuid>, question: Condition)
    ensures var seated := SeatAll(Unopened(mode, teams), roster);
            seated.(engine := HandleOpen(seated.engine, 1, question)) == NewArena(mode, teams, roster, question)
    ensures ArenaInv(NewArena(mode, teams, roster, question))
  {
    SeatingIgnoresEngine(Unopened(mode, teams), HandleOpen(New(Some(teams)), 1, question), roster);
    SeatingKeepsEngine(Unopened(mode, teams), roster);
    NewArenaIsSound(mode, teams, roster, question);
  }

  lemma {:induction false} SeatingIgnoresEngine(a: Arena, e: Engine, roster: seq<Uuid>)
    ensures SeatAll(a.(engine := e), roster) == SeatAll(a, roster).(engine := e)
  {
    if roster != [] { SeatingIgnoresEngine(a, e, roster[..|roster| - 1]); }
  }

  lemma {:induction false} SeatingKeepsEngine(a: Arena, roster: seq<Uuid>)
    ensures SeatAll(a, roster).engine == a.engine
  {
    if roster != [] { SeatingKeepsEngine(a, roster[..|roster| - 1]); }
  }
}

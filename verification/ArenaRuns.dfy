/** What holds over every run of an arena. */
module ArenaRuns {
  import opened Cs2Types
  import opened Cs2Settle
  import opened RoundTracker
  import opened RoundEngine
  import RoundRuns
  import opened TrackedRuns
  import opened RoundOutcome
  import opened Leaderboard
  import opened ArenaModel
  import opened ArenaFairness
  import opened ArenaFinish

  ghost predicate ArenaInv(a: Arena) {
    && Inv(a.engine) && 1 in a.engine.rounds
    && a.engine.finished == a.winners.Some?
    && (if a.winners.None? then Undecided(a) else Over(a))
  }

  ghost predicate AnySettled(e: Engine) { exists n :: HasRound(e, n, Settled) }

  /** Before the first settlement everyone is still at zero. */
  ghost predicate Unscored(a: Arena) {
    forall u | u in a.board.rows :: a.board.rows[u].score == 0 && !a.board.rows[u].status.Eliminated?
  }

  ghost predicate FairInv(a: Arena) {
    && (if a.winners.None? then FairField(a) else WinnersLead(a.board.rows))
    && (AnySettled(a.engine) || Unscored(a))
  }

  // ----- the arena's engine is an engine run

  /** Whether the settlement a signal causes finishes the arena. */
  function SettlementFinishes(a: Arena, signal: Signal): bool {
    match signal
    case RoundEnd(n, after) => RoundEndStep(a, n, after).winners.Some?
    case MatchEnd => SettleLastStep(a).winners.Some?
    case _ => false
  }

  lemma SettleProjects(a: Arena, n: int, before: GameSnapshot, after: GameSnapshot)
    requires n in a.engine.rounds && a.winners.None?
    ensures SettleRound(a, n, before, after).engine
            == Settle(a.engine, n, before, after, SettleRound(a, n, before, after).winners.Some?)
  {
  }

  lemma {:induction false} VoidNothing(e: Engine, numbers: seq<int>, through: Option<int>)
    requires Quiet(e)
    ensures VoidEach(e, numbers, through) == e
    decreases |numbers|
  {
    if numbers != [] { VoidNothing(e, numbers[1..], through); }
  }

  /** A settlement callback is the only way the owner reaches into the engine; the rest is the engine's own doing. */
  lemma {:induction false} ArenaFollowsEngine(a: Arena, signal: Signal, question: Condition)
    requires ArenaInv(a)
    ensures OnSignal(a, signal, question).engine == Deliver(a.engine, signal, question, SettlementFinishes(a, signal))
  {
    match signal
    case RoundEnd(n, after) =>
      if CanSettle(a.engine, n) { SettleProjects(a, n, a.engine.baselines[n], after); }
    case MatchEnd => MatchEndFollowsEngine(a);
    case _ =>
  }

  lemma {:induction false} SettleLastProjects(a: Arena)
    requires ArenaInv(a)
    ensures SettleLastStep(a).engine == SettleLastRound(a.engine, SettleLastStep(a).winners.Some?)
    ensures EngineMatchEnd(a).engine == HandleMatchEnd(a.engine, SettleLastStep(a).winners.Some?)
  {
    if SettleLastStep(a) != a {
      SettleStepProjects(a, DeriveRoundNumber(a.engine.lastLive.value) - 1, a.engine.lastLive.value);
    }
  }

  lemma SettleStepProjects(a: Arena, n: int, after: GameSnapshot)
    requires ArenaInv(a) && CanSettle(a.engine, n)
    ensures var settled := SettleRoundWithBaseline(a, n, after);
            settled.engine == SettleWithBaseline(a.engine, n, after, settled.winners.Some?)
  {
    SettleProjects(a, n, a.engine.baselines[n], after);
  }

  lemma PlayersIgnoreEngine(a: Arena, e: Engine)
    requires Undecided(a)
    ensures Undecided(a.(engine := e))
    ensures FairField(a) ==> FairField(a.(engine := e))
  {
  }

  lemma {:induction false} DecidedRoundKeeps(a: Arena, e: Engine, n: int, correct: Answer)
    requires Undecided(a) && Inv(e) && 1 in e.rounds && !e.finished && HasRound(e, n, Settled)
    ensures var s := HandleSettle(a.(engine := e), n, correct);
            ArenaInv(s) && (FairField(a) ==> FairInv(s))
  {
    PlayersIgnoreEngine(a, e);
    var marked := a.(engine := e);
    DecidedRoundIsSound(marked, n, correct);
    if FairField(a) { SettlementKeepsFair(marked, n, correct); }
  }

  lemma DecidedRoundIsSound(a: Arena, n: int, correct: Answer)
    requires Undecided(a) && Inv(a.engine) && 1 in a.engine.rounds && !a.engine.finished && HasRound(a.engine, n, Settled)
    ensures var s := HandleSettle(a, n, correct); ArenaInv(s) && AnySettled(s.engine)
  {
    SettlementKeeps(a, n, correct);
    SettledArena(HandleSettle(a, n, correct), a.engine, n);
  }

  /** The arena `s` after its settlement, from what is known of its players and of its engine. */
  lemma SettledArena(s: Arena, e: Engine, n: int)
    requires Inv(e) && 1 in e.rounds && !e.finished && HasRound(e, n, Settled)
    requires if s.winners.None? then Undecided(s) && s.engine == e else Over(s) && s.engine == Finish(e)
    ensures ArenaInv(s) && AnySettled(s.engine)
  {
    FinishKeeps(e);
    assert HasRound(s.engine, n, Settled);
  }

  lemma {:induction false} VoidedRoundKeeps(a: Arena, n: int, reason: InvalidReason)
    requires ArenaInv(a) && HasRound(a.engine, n, Locked)
    ensures var s := a.(engine := VoidRound(a.engine, n, Some(reason)));
            ArenaInv(s) && (FairInv(a) ==> FairInv(s))
  {
    VoidRoundKeeps(a.engine, n, Some(reason));
    EngineOnly(a, VoidRound(a.engine, n, Some(reason)));
  }

  lemma {:induction false} SettleRoundKeeps(a: Arena, n: int, before: GameSnapshot, after: GameSnapshot)
    requires ArenaInv(a) && HasRound(a.engine, n, Locked)
    ensures ArenaInv(SettleRound(a, n, before, after))
    ensures FairInv(a) ==> FairInv(SettleRound(a, n, before, after))
  {
    match ResolveCs2Settlement(a.engine.rounds[n].condition, before, after)
    case Invalid(reason) => VoidedRoundKeeps(a, n, reason);
    case Decided(answer) =>
      MarkSettledKeeps(a.engine, n, before, after, answer);
      DecidedRoundKeeps(a, MarkSettled(a.engine, n, before, after, answer), n, answer);
  }

  lemma {:induction false} SettleStepKeeps(a: Arena, n: int, after: GameSnapshot)
    requires ArenaInv(a) && CanSettle(a.engine, n)
    ensures ArenaInv(SettleRoundWithBaseline(a, n, after))
    ensures FairInv(a) ==> FairInv(SettleRoundWithBaseline(a, n, after))
  {
    SettleRoundKeeps(a, n, a.engine.baselines[n], after);
    var settled := SettleRound(a, n, a.engine.baselines[n], after);
    EngineOnly(settled, settled.engine.(baselines := settled.engine.baselines - {n}));
  }

  lemma SettledStays(e: Engine, later: Engine)
    requires e.rounds.Keys <= later.rounds.Keys
    requires forall m | m in e.rounds && !Pending(e.rounds[m]) :: later.rounds[m] == e.rounds[m]
    ensures AnySettled(e) ==> AnySettled(later)
  {
    if AnySettled(e) {
      var n :| HasRound(e, n, Settled);
      assert HasRound(later, n, Settled);
    }
  }

  lemma {:induction false} SettlementKeeps(a: Arena, n: int, correct: Answer)
    requires Undecided(a)
    ensures var s := HandleSettle(a, n, correct);
            if s.winners.None? then Undecided(s) && s.engine == a.engine
            else Over(s) && s.engine == Finish(a.engine)
  {
    var o := OutcomeOf(a, n, correct);
    OutcomeLists(a, n, correct);
    if o.results == [] {
      EmptyOutcome(a, o, n);
    } else {
      SettlementDecides(a, o, ActiveSeats(a.status, a.seats), n);
      var (s, pending) := ApplyOutcome(a, o, n);
      if pending.Some? { FlushDecides(s, pending.value); }
    }
  }

  lemma {:induction false} SettlementKeepsFair(a: Arena, n: int, correct: Answer)
    requires Undecided(a) && FairField(a)
    ensures var s := HandleSettle(a, n, correct);
            if s.winners.None? then FairField(s) else WinnersLead(s.board.rows)
  {
    var o := OutcomeOf(a, n, correct);
    OutcomeLists(a, n, correct);
    OutcomeIsFair(a, n, correct);
    if o.results == [] {
      EmptyOutcome(a, o, n);
    } else {
      SettlementDecidesFairly(a, o, ActiveSeats(a.status, a.seats), n);
    }
  }

  /** Replacing the engine by one that settled nothing leaves the players as they were. */
  lemma EngineOnly(a: Arena, e: Engine)
    requires ArenaInv(a) && Inv(e) && 1 in e.rounds && e.finished == a.engine.finished
    requires e.rounds.Keys >= a.engine.rounds.Keys
    requires forall m | m in a.engine.rounds && !Pending(a.engine.rounds[m]) :: e.rounds[m] == a.engine.rounds[m]
    ensures ArenaInv(a.(engine := e))
    ensures FairInv(a) ==> FairInv(a.(engine := e))
  {
    SettledStays(a.engine, e);
  }

  lemma {:induction false} SettleLastKeeps(a: Arena)
    requires ArenaInv(a)
    ensures ArenaInv(SettleLastStep(a))
    ensures FairInv(a) ==> FairInv(SettleLastStep(a))
  {
    if SettleLastStep(a) != a {
      SettleStepKeeps(a, DeriveRoundNumber(a.engine.lastLive.value) - 1, a.engine.lastLive.value);
    }
  }

  lemma {:induction false} EngineMatchEndKeeps(a: Arena)
    requires ArenaInv(a)
    ensures ArenaInv(EngineMatchEnd(a)) && Quiet(EngineMatchEnd(a).engine)
    ensures FairInv(a) ==> FairInv(EngineMatchEnd(a))
  {
    SettleLastKeeps(a);
    var settled := SettleLastStep(a);
    VoidEachEffect(settled.engine, settled.engine.order, None);
    EngineOnly(settled, EngineMatchEnd(a).engine);
  }

  lemma {:induction false} FinalizeKeeps(a: Arena)
    requires ArenaInv(a) && Quiet(a.engine)
    ensures ArenaInv(Finalize(a)) && Finalize(a).winners.Some?
    ensures Finalize(a).engine == Finish(a.engine)
    ensures FairInv(a) ==> FairInv(Finalize(a))
  {
    VoidNothing(a.engine.(finished := true), a.engine.order, None);
    if a.winners.None? {
      FinalizeDecides(a);
      FinishKeeps(a.engine);
      SettledStays(a.engine, Finish(a.engine));
    } else {
      assert a.engine.(finished := true) == a.engine;
    }
  }

  lemma {:induction false} MatchEndFollowsEngine(a: Arena)
    requires ArenaInv(a)
    ensures Finalize(EngineMatchEnd(a)).engine == Finish(HandleMatchEnd(a.engine, SettleLastStep(a).winners.Some?))
  {
    SettleLastProjects(a);
    EngineMatchEndKeeps(a);
    FinalizeKeeps(EngineMatchEnd(a));
  }

  lemma {:induction false} SignalKeeps(a: Arena, signal: Signal, question: Condition)
    requires ArenaInv(a)
    ensures ArenaInv(OnSignal(a, signal, question))
    ensures FairInv(a) ==> FairInv(OnSignal(a, signal, question))
  {
    match signal
    case RoundEnd(n, after) => if CanSettle(a.engine, n) { SettleStepKeeps(a, n, after); }
    case MatchEnd =>
      EngineMatchEndKeeps(a);
      FinalizeKeeps(EngineMatchEnd(a));
    case _ =>
      ApplyKeeps(a.engine, signal, question, false);
      RoundRuns.ResolvedRoundsStay(a.engine, signal, question, false);
      LockNeverFinishes(a.engine, signal, question);
      EngineOnly(a, Apply(a.engine, signal, question, false));
  }

  lemma {:induction false} LockNeverFinishes(e: Engine, signal: Signal, question: Condition)
    requires Inv(e) && (signal.SnapshotSeen? || signal.RoundLock?)
    ensures Apply(e, signal, question, false).finished == e.finished
  {
    if signal.RoundLock? && signal.number !in e.rounds {
      VoidEachEffect(e, e.order, Some(signal.number));
    }
  }

  lemma {:induction false} JoinKeeps(a: Arena, u: Uuid)
    requires ArenaInv(a)
    ensures ArenaInv(Join(a, u)) && Join(a, u).engine == a.engine
  {
    JoinKeepsSeats(a, u);
    JoinAddsAtMostOne(a, u);
    if a.winners.None? { JoinKeepsUndecided(a, Join(a, u), u); }
  }

  lemma {:induction false} JoinKeepsUndecided(a: Arena, j: Arena, u: Uuid)
    requires Undecided(a) && Seated(j) && j.board.rows.Keys == j.status.Keys
    requires !j.board.finished && j.winners.None? && j.finishCalls == [] && u in j.board.rows
    requires forall v | v in a.board.rows :: v in j.board.rows && j.board.rows[v] == a.board.rows[v]
    requires forall v | v in j.board.rows && v !in a.board.rows :: v == u && j.board.rows[v] == NEW_ROW
    ensures Undecided(j)
  {
    if v :| v in a.board.rows && a.board.rows[v].status.Active? {
      assert j.board.rows[v].status.Active?;
    } else {
      assert j.board.rows[u].status.Active?;
    }
  }

  lemma {:induction false} JoinKeepsFair(a: Arena, u: Uuid)
    requires ArenaInv(a) && FairInv(a) && !AnySettled(a.engine)
    ensures FairInv(Join(a, u))
  {
    JoinAddsAtMostOne(a, u);
    var rows := Join(a, u).board.rows;
    forall v | v in rows ensures rows[v].score == 0 && !rows[v].status.Eliminated? {
    }
  }

  lemma {:induction false} JoinAddsAtMostOne(a: Arena, u: Uuid)
    requires Seated(a)
    ensures var j := Join(a, u);
            && j.board == AddRow(a.board, u) && j.finishCalls == a.finishCalls
            && j.winners == a.winners && j.finalCircleFrom == a.finalCircleFrom && j.mode == a.mode
            && (forall v | v in a.board.rows :: v in j.board.rows && j.board.rows[v] == a.board.rows[v])
            && (forall v | v in j.board.rows && v !in a.board.rows :: v == u && j.board.rows[v] == NEW_ROW)
            && (a.board.finished ==> j.board == a.board)
            && (!a.board.finished ==> u in j.board.rows)
  {
  }

  lemma {:induction false} JoinKeepsSeats(a: Arena, u: Uuid)
    requires Seated(a) && (a.board.finished || a.board.rows.Keys == a.status.Keys)
    ensures Seated(Join(a, u))
    ensures !a.board.finished ==> Join(a, u).board.rows.Keys == Join(a, u).status.Keys
  {
  }

  lemma {:induction false} StepKeeps(a: Arena, step: ArenaStep)
    requires ArenaInv(a)
    ensures ArenaInv(Step(a, step))
    ensures FairInv(a) && (step.JoinStep? ==> !AnySettled(a.engine)) ==> FairInv(Step(a, step))
  {
    match step
    case JoinStep(u) =>
      JoinKeeps(a, u);
      if FairInv(a) && !AnySettled(a.engine) { JoinKeepsFair(a, u); }
    case SubmitStep(_, _, _) =>
    case SignalStep(signal, question) => SignalKeeps(a, signal, question);
    case OpenOneStep(_) =>
  }

  lemma {:induction false} NewArenaIsSound(mode: Mode, teams: (Uuid, Uuid), roster: seq<Uuid>, question: Condition)
    ensures var a := NewArena(mode, teams, roster, question);
            ArenaInv(a) && FairInv(a) && !AnySettled(a.engine)
  {
    var empty := NewArena(mode, teams, [], question);
    RoundRuns.OpeningIsSound(teams, question);
    assert Seated(empty) && ArenaInv(empty);
    SeatAllKeeps(empty, roster);
  }

  lemma {:induction false} SeatAllKeeps(a: Arena, roster: seq<Uuid>)
    requires ArenaInv(a) && FairInv(a) && !AnySettled(a.engine)
    ensures ArenaInv(SeatAll(a, roster)) && FairInv(SeatAll(a, roster)) && SeatAll(a, roster).engine == a.engine
  {
    if roster != [] {
      SeatAllKeeps(a, roster[..|roster| - 1]);
      JoinKeeps(SeatAll(a, roster[..|roster| - 1]), roster[|roster| - 1]);
      JoinKeepsFair(SeatAll(a, roster[..|roster| - 1]), roster[|roster| - 1]);
    }
  }

  // ----- main results

  /** In every run the store and the leaderboard agree, and the arena finishes at most once, never without a winner. */
  lemma {:induction false} EveryArenaIsSound(
    mode: Mode, teams: (Uuid, Uuid), roster: seq<Uuid>, question: Condition, steps: seq<ArenaStep>)
    ensures ArenaInv(Run(NewArena(mode, teams, roster, question), steps))
  {
    var start := NewArena(mode, teams, roster, question);
    if steps == [] {
      NewArenaIsSound(mode, teams, roster, question);
    } else {
      EveryArenaIsSound(mode, teams, roster, question, steps[..|steps| - 1]);
      StepKeeps(Run(start, steps[..|steps| - 1]), steps[|steps| - 1]);
    }
  }

  /** Entries close before play: nobody joins once a round has been settled. */
  ghost predicate JoinsFirst(start: Arena, steps: seq<ArenaStep>) {
    forall i | 0 <= i < |steps| && steps[i].JoinStep? :: !AnySettled(Run(start, steps[..i]).engine)
  }

  /**
   * With all joins before the first settlement, at every moment of every run no eliminated player has
   * more points than an active one, hardcore rules keep the active players level, and once the arena
   * is decided no loser has more points than a winner.
   */
  lemma {:induction false} NoEliminatedPlayerIsAhead(
    mode: Mode, teams: (Uuid, Uuid), roster: seq<Uuid>, question: Condition, steps: seq<ArenaStep>)
    requires JoinsFirst(NewArena(mode, teams, roster, question), steps)
    ensures var a := Run(NewArena(mode, teams, roster, question), steps);
            FairInv(a) && ArenaInv(a)
  {
    var start := NewArena(mode, teams, roster, question);
    EveryArenaIsSound(mode, teams, roster, question, steps);
    if steps == [] {
      NewArenaIsSound(mode, teams, roster, question);
    } else {
      var shorter := steps[..|steps| - 1];
      assert forall i | 0 <= i < |shorter| :: shorter[..i] == steps[..i];
      NoEliminatedPlayerIsAhead(mode, teams, roster, question, shorter);
      StepKeeps(Run(start, shorter), steps[|steps| - 1]);
    }
  }

  /** The stored results: a winner's place is never behind a loser's. */
  lemma {:induction false} WinnersRankFirst(
    mode: Mode, teams: (Uuid, Uuid), roster: seq<Uuid>, question: Condition, steps: seq<ArenaStep>, w: Uuid, x: Uuid)
    requires JoinsFirst(NewArena(mode, teams, roster, question), steps)
    requires var a := Run(NewArena(mode, teams, roster, question), steps);
             a.winners.Some? && w in a.board.rows && x in a.board.rows && w in a.winners.value && x !in a.winners.value
    ensures var a := Run(NewArena(mode, teams, roster, question), steps);
            && |a.finishCalls| == 1 && w in a.finishCalls[0].results && x in a.finishCalls[0].results
            && a.finishCalls[0].results[w].rank <= a.finishCalls[0].results[x].rank
  {
    NoEliminatedPlayerIsAhead(mode, teams, roster, question, steps);
    NoLoserRanksAboveAWinner(Run(NewArena(mode, teams, roster, question), steps), w, x);
  }

  /** One step never touches an eliminated player's row, and never changes winners once there are some. */
  ghost predicate Lasting(a: Arena, later: Arena) {
    && a.board.rows.Keys <= later.board.rows.Keys
    && (forall u | u in a.board.rows && a.board.rows[u].status.Eliminated? :: later.board.rows[u] == a.board.rows[u])
    && (a.winners.Some? ==> later.winners == a.winners && later.finishCalls == a.finishCalls && later.board == a.board)
  }

  lemma {:induction false} SettlementLasts(a: Arena, n: int, correct: Answer)
    requires Undecided(a)
    ensures Lasting(a, HandleSettle(a, n, correct))
  {
    var o, ids := OutcomeOf(a, n, correct), ActiveSeats(a.status, a.seats);
    OutcomeLists(a, n, correct);
    if o.results == [] {
      EmptyOutcome(a, o, n);
    } else {
      RowByRow(a, o, ids, n);
      FinishRule(a.board, o.results, n);
    }
  }

  lemma {:induction false} SettleRoundLasts(a: Arena, n: int, before: GameSnapshot, after: GameSnapshot)
    requires ArenaInv(a) && HasRound(a.engine, n, Locked)
    ensures Lasting(a, SettleRound(a, n, before, after))
  {
    match ResolveCs2Settlement(a.engine.rounds[n].condition, before, after)
    case Invalid(_) =>
    case Decided(answer) =>
      var e := MarkSettled(a.engine, n, before, after, answer);
      PlayersIgnoreEngine(a, e);
      SettlementLasts(a.(engine := e), n, answer);
  }

  lemma {:induction false} FinalizeLasts(a: Arena)
    requires ArenaInv(a)
    ensures Lasting(a, Finalize(a))
  {
    if a.winners.None? { ActiveIdsMean(a.board); }
  }

  lemma {:induction false} EngineMatchEndLasts(a: Arena)
    requires ArenaInv(a)
    ensures Lasting(a, EngineMatchEnd(a))
  {
    SettleLastLasts(a);
    SamePlayersLast(SettleLastStep(a), EngineMatchEnd(a));
    LastingTwice(a, SettleLastStep(a), EngineMatchEnd(a));
  }

  lemma SettleLastLasts(a: Arena)
    requires ArenaInv(a)
    ensures Lasting(a, SettleLastStep(a))
  {
    if SettleLastStep(a) != a {
      var n := DeriveRoundNumber(a.engine.lastLive.value) - 1;
      var settled := SettleRound(a, n, a.engine.baselines[n], a.engine.lastLive.value);
      SettleRoundLasts(a, n, a.engine.baselines[n], a.engine.lastLive.value);
      SamePlayersLast(settled, SettleLastStep(a));
      LastingTwice(a, settled, SettleLastStep(a));
    }
  }

  lemma {:induction false} StepLasts(a: Arena, step: ArenaStep)
    requires ArenaInv(a)
    ensures Lasting(a, Step(a, step))
  {
    match step
    case JoinStep(u) => JoinAddsAtMostOne(a, u);
    case SubmitStep(_, _, _) => SamePlayersLast(a, Step(a, step));
    case SignalStep(signal, question) => SignalLasts(a, signal, question);
    case OpenOneStep(_) => SamePlayersLast(a, Step(a, step));
  }

  lemma SignalLasts(a: Arena, signal: Signal, question: Condition)
    requires ArenaInv(a)
    ensures Lasting(a, OnSignal(a, signal, question))
  {
    match signal
    case RoundEnd(n, after) =>
      if CanSettle(a.engine, n) { SettleRoundLasts(a, n, a.engine.baselines[n], after); }
    case MatchEnd => MatchEndLasts(a);
    case _ => SamePlayersLast(a, OnSignal(a, signal, question));
  }

  lemma MatchEndLasts(a: Arena)
    requires ArenaInv(a)
    ensures Lasting(a, Finalize(EngineMatchEnd(a)))
  {
    EngineMatchEndLasts(a);
    EngineMatchEndKeeps(a);
    FinalizeLasts(EngineMatchEnd(a));
    LastingTwice(a, EngineMatchEnd(a), Finalize(EngineMatchEnd(a)));
  }

  lemma SamePlayersLast(a: Arena, later: Arena)
    requires later.board == a.board && later.winners == a.winners && later.finishCalls == a.finishCalls
    ensures Lasting(a, later)
  {
  }

  lemma LastingTwice(a: Arena, b: Arena, c: Arena)
    requires Lasting(a, b) && Lasting(b, c)
    ensures Lasting(a, c)
  {
  }

  /** Over any continuation of a run, eliminated players' rows are frozen and the winners are final. */
  lemma {:induction false} ResultsAreFinal(
    mode: Mode, teams: (Uuid, Uuid), roster: seq<Uuid>, question: Condition, steps: seq<ArenaStep>, k: nat)
    requires k <= |steps|
    ensures var start := NewArena(mode, teams, roster, question);
            Lasting(Run(start, steps[..k]), Run(start, steps))
    decreases |steps|
  {
    var start := NewArena(mode, teams, roster, question);
    if k == |steps| {
      assert steps[..k] == steps;
    } else {
      var shorter := steps[..|steps| - 1];
      assert shorter[..k] == steps[..k];
      ResultsAreFinal(mode, teams, roster, question, shorter, k);
      EveryArenaIsSound(mode, teams, roster, question, shorter);
      StepLasts(Run(start, shorter), steps[|steps| - 1]);
      LastingTwice(Run(start, steps[..k]), Run(start, shorter), Run(start, steps));
    }
  }

  /** An answer is never recorded for a round that is no longer open, nor for a player who is not active. */
  lemma AnswersCloseWithTheRound(a: Arena, step: ArenaStep, n: int)
    ensures AnswersFor(Step(a, step), n) != AnswersFor(a, n) ==>
              && step.SubmitStep? && step.number == n && HasRound(a.engine, n, Open)
              && step.userId in a.status && a.status[step.userId] == Active
  {
    if step.SignalStep? { SignalKeepsAnswers(a, step.signal, step.question); }
  }

  lemma SettlementKeepsAnswers(a: Arena, n: int, before: GameSnapshot, after: GameSnapshot)
    requires n in a.engine.rounds
    ensures SettleRound(a, n, before, after).answers == a.answers
  {
  }

  lemma SignalKeepsAnswers(a: Arena, signal: Signal, question: Condition)
    ensures OnSignal(a, signal, question).answers == a.answers
  {
    match signal
    case RoundEnd(n, after) =>
      if CanSettle(a.engine, n) { SettlementKeepsAnswers(a, n, a.engine.baselines[n], after); }
    case MatchEnd =>
      SettleLastKeepsAnswers(a);
      FinalizeKeepsAnswers(EngineMatchEnd(a));
    case _ =>
  }

  lemma SettleLastKeepsAnswers(a: Arena)
    ensures SettleLastStep(a).answers == a.answers
  {
    if SettleLastStep(a) != a {
      var n := DeriveRoundNumber(a.engine.lastLive.value) - 1;
      SettlementKeepsAnswers(a, n, a.engine.baselines[n], a.engine.lastLive.value);
    }
  }

  lemma FinalizeKeepsAnswers(a: Arena)
    ensures Finalize(a).answers == a.answers
  {
  }
}

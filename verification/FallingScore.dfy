/** What happens to the one open round where the score falls back. */
module FallingScore {
  import opened Cs2Types
  import opened Cs2Settle
  import opened RoundTracker
  import opened RoundEngine
  import opened RoundRuns
  import opened TrackedRuns

  /**
   * A lock below the open round leaves that one open, and opens the round after its own beside it exactly when that is
   * a new round of an unfinished arena, or it was open already. The locked round may be known or never seen.
   */
  lemma {:induction false} BackwardLockOpensASecondRoundExactlyWhen(e: Engine, n: int, m: int, question: Condition)
    requires Inv(e) && HasRound(e, n, Open) && m + 1 < n && e.teams.Some?
    ensures var after := HandleRoundLock(e, m, question);
            && HasRound(after, n, Open)
            && (HasRound(after, m + 1, Open) <==> HasRound(e, m + 1, Open) || (m + 1 !in e.rounds && !e.finished))
  {
    if m !in e.rounds { VoidEachEffect(e, e.order, Some(m)); }
  }

  // ----- every signal

  ghost predicate TwoOpen(e: Engine) { exists a, b :: a != b && HasRound(e, a, Open) && HasRound(e, b, Open) }

  /** The round after `n` is new, and some other open round is not among those a lock of `n` resolves. */
  ghost predicate OpensASecond(e: Engine, n: int) {
    && !e.finished && n + 1 !in e.rounds
    && exists other :: HasRound(e, other, Open) && other != n && (other > n || n in e.rounds)
  }

  /** What a lock does to the open rounds. */
  lemma LockedOpenRounds(e: Engine, n: int, question: Condition)
    requires Inv(e) && e.teams.Some?
    ensures var after := HandleRoundLock(e, n, question);
            forall m :: HasRound(after, m, Open)
                        <==> || (HasRound(e, m, Open) && m != n && (m > n || n in e.rounds))
                             || (m == n + 1 && n + 1 !in e.rounds && !e.finished)
  {
    if n !in e.rounds { VoidEachEffect(e, e.order, Some(n)); }
  }

  /** No other signal opens a round. */
  lemma OthersOpenNothing(e: Engine, signal: Signal, question: Condition, finishes: bool)
    requires Inv(e) && !signal.RoundLock?
    ensures forall m | HasRound(Apply(e, signal, question, finishes), m, Open) :: HasRound(e, m, Open)
  {
    match signal
    case SnapshotSeen(_) =>
    case RoundEnd(n, after) => if CanSettle(e, n) { SettleKeeps(e, n, e.baselines[n], after, finishes); }
    case MatchEnd => MatchEndKeeps(e, finishes);
  }

  lemma SecondRoundOpens(e: Engine, n: int, question: Condition)
    requires Inv(e) && e.teams.Some? && OpensASecond(e, n)
    ensures TwoOpen(HandleRoundLock(e, n, question))
  {
    LockedOpenRounds(e, n, question);
    var other :| HasRound(e, other, Open) && other != n && (other > n || n in e.rounds);
    assert HasRound(HandleRoundLock(e, n, question), other, Open) && HasRound(HandleRoundLock(e, n, question), n + 1, Open);
  }

  /** Where no two rounds are open, every signal but such a lock leaves it so. */
  lemma {:induction false} SecondRoundOpensExactlyWhen(e: Engine, signal: Signal, question: Condition, finishes: bool)
    requires Inv(e) && e.teams.Some? && !TwoOpen(e)
    ensures TwoOpen(Apply(e, signal, question, finishes)) <==> signal.RoundLock? && OpensASecond(e, signal.number)
  {
    if signal.RoundLock? {
      LockedOpenRounds(e, signal.number, question);
      if OpensASecond(e, signal.number) { SecondRoundOpens(e, signal.number, question); }
    } else {
      OthersOpenNothing(e, signal, question, finishes);
    }
  }

  /** Beside an open round that is the highest, these are the locks below it whose next round is new. */
  lemma BesideTheHighestExactlyWhen(e: Engine, n: int, signal: Signal, question: Condition, finishes: bool)
    requires Inv(e) && e.teams.Some? && HasRound(e, n, Open)
    requires forall m | m in e.rounds && m != n :: m < n && e.rounds[m].status != Open
    ensures TwoOpen(Apply(e, signal, question, finishes))
            <==> signal.RoundLock? && signal.number + 1 < n && signal.number + 1 !in e.rounds
  {
    SecondRoundOpensExactlyWhen(e, signal, question, finishes);
  }

  // ----- every run

  ghost predicate EverTwoOpen(e: Engine, steps: seq<EngineStep>) {
    exists k :: 0 <= k <= |steps| && TwoOpen(Run(e, steps[..k]))
  }

  ghost predicate StepOpensASecond(e: Engine, step: EngineStep) {
    step.OnSignal? && step.signal.RoundLock? && OpensASecond(e, step.signal.number)
  }

  ghost predicate EverOpensASecond(e: Engine, steps: seq<EngineStep>) {
    exists k :: 0 <= k < |steps| && StepOpensASecond(Run(e, steps[..k]), steps[k])
  }

  lemma TeamsStay(e: Engine, step: EngineStep)
    requires Inv(e) && e.teams.Some?
    ensures Step(e, step).teams.Some?
  {
    match step
    case OnSignal(signal, question, finishes) =>
      match signal {
        case SnapshotSeen(_) =>
        case RoundLock(n) => if n !in e.rounds { VoidEachEffect(e, e.order, Some(n)); }
        case RoundEnd(n, after) => if CanSettle(e, n) { SettleKeeps(e, n, e.baselines[n], after, finishes); }
        case MatchEnd => TeamsStayAtMatchEnd(e, finishes);
      }
    case OpenRoundOne(_) =>
    case FinishArena => VoidEachEffect(e.(finished := true), e.order, None);
  }

  lemma TeamsStayAtMatchEnd(e: Engine, finishes: bool)
    requires Inv(e)
    ensures HandleMatchEnd(e, finishes).teams == e.teams
  {
    var settled := SettleLastRound(e, finishes);
    if settled != e {
      var n := DeriveRoundNumber(e.lastLive.value) - 1;
      SettleKeeps(e, n, e.baselines[n], e.lastLive.value, finishes);
    }
    VoidEachEffect(settled, settled.order, None);
  }

  /** One step of an engine with round one and no two rounds open. */
  lemma StepOpensExactlyWhen(e: Engine, step: EngineStep)
    requires Inv(e) && e.teams.Some? && 1 in e.rounds && !TwoOpen(e)
    ensures TwoOpen(Step(e, step)) <==> StepOpensASecond(e, step)
  {
    match step
    case OnSignal(signal, question, finishes) => SecondRoundOpensExactlyWhen(e, signal, question, finishes);
    case OpenRoundOne(_) =>
    case FinishArena => FinishKeeps(e);
  }

  lemma EverTwoOpenOneMore(e: Engine, steps: seq<EngineStep>)
    requires steps != []
    ensures EverTwoOpen(e, steps) <==> EverTwoOpen(e, steps[..|steps| - 1]) || TwoOpen(Run(e, steps))
  {
    var n := |steps| - 1;
    var shorter := steps[..n];
    assert steps[..|steps|] == steps;
    assert forall k | 0 <= k <= n :: shorter[..k] == steps[..k];
    if EverTwoOpen(e, shorter) {
      var k :| 0 <= k <= n && TwoOpen(Run(e, shorter[..k]));
      assert TwoOpen(Run(e, steps[..k]));
    }
    if EverTwoOpen(e, steps) {
      var k :| 0 <= k <= |steps| && TwoOpen(Run(e, steps[..k]));
      if k <= n { assert TwoOpen(Run(e, shorter[..k])); }
    }
  }

  lemma EverOpensASecondOneMore(e: Engine, steps: seq<EngineStep>)
    requires steps != []
    ensures var shorter := steps[..|steps| - 1];
            EverOpensASecond(e, steps)
            <==> EverOpensASecond(e, shorter) || StepOpensASecond(Run(e, shorter), steps[|steps| - 1])
  {
    var n := |steps| - 1;
    var shorter := steps[..n];
    assert forall k | 0 <= k <= n :: shorter[..k] == steps[..k];
    if EverOpensASecond(e, shorter) {
      var k :| 0 <= k < n && StepOpensASecond(Run(e, shorter[..k]), shorter[k]);
      assert StepOpensASecond(Run(e, steps[..k]), steps[k]);
    }
    if EverOpensASecond(e, steps) {
      var k :| 0 <= k < |steps| && StepOpensASecond(Run(e, steps[..k]), steps[k]);
      if k < n { assert StepOpensASecond(Run(e, shorter[..k]), shorter[k]); }
    }
  }

  /** Over every run from the opening, whatever is fed: two rounds are open at some time if and only if such a lock came. */
  lemma {:induction false} TwoRoundsOpenExactlyWhen(teams: (Uuid, Uuid), question: Condition, steps: seq<EngineStep>)
    ensures var start := Opening(teams, question);
            && Run(start, steps).teams.Some?
            && (EverTwoOpen(start, steps) <==> EverOpensASecond(start, steps))
  {
    var start := Opening(teams, question);
    if steps == [] {
      assert steps[..0] == steps;
    } else {
      var shorter, last := steps[..|steps| - 1], steps[|steps| - 1];
      var e := Run(start, shorter);
      TwoRoundsOpenExactlyWhen(teams, question, shorter);
      EveryRunIsLegal(teams, question, shorter, 0);
      TeamsStay(e, last);
      EverTwoOpenOneMore(start, steps);
      EverOpensASecondOneMore(start, steps);
      if !EverTwoOpen(start, shorter) {
        assert shorter[..|shorter|] == shorter;
        StepOpensExactlyWhen(e, last);
      }
    }
  }

  // ----- one such run

  /** A lock of a round that was never seen opens the next one and leaves all later rounds alone. */
  lemma UnseenLock(e: Engine, n: int, question: Condition)
    requires Inv(e) && n !in e.rounds && n + 1 !in e.rounds && !e.finished && e.teams.Some?
    ensures var after := HandleRoundLock(e, n, question);
            && Inv(after) && !after.finished && after.teams.Some? && after.rounds.Keys == e.rounds.Keys + {n + 1}
            && HasRound(after, n + 1, Open)
            && forall m | m in e.rounds && m > n :: after.rounds[m] == e.rounds[m]
  {
    LockKeeps(e, n, question);
    VoidEachEffect(e, e.order, Some(n));
  }

  /** Team 1 won `won` rounds, team 2 none, at `seconds` on a running clock. */
  function Scored(won: int, seconds: int): GameSnapshot {
    GameSnapshot(TeamStats(1, won, 0, [], []), TeamStats(2, 0, 0, [], []), true, seconds)
  }

  function Delivered(won: int, seconds: int, question: Condition): Poll {
    Poll(Some(Scored(won, seconds)), question, false, true)
  }

  /** One delivered poll of the same teams that locks a round never seen, and ends none. */
  lemma PollLocksUnseen(p: Pipeline, won: int, seconds: int, question: Condition)
    requires Inv(p.engine) && !p.engine.finished
    requires won + 1 !in p.engine.rounds && won + 2 !in p.engine.rounds
    requires p.tracker.lastSnapshot.Some? && HaveSameTeams(p.tracker.lastSnapshot.value, Scored(won, seconds))
    requires LocksRound(p.tracker, Scored(won, seconds)) && !EndsRound(p.tracker, Scored(won, seconds))
    ensures var next := OnPoll(p, Delivered(won, seconds, question));
            && Inv(next.engine) && !next.engine.finished && next.engine.rounds.Keys == p.engine.rounds.Keys + {won + 2}
            && HasRound(next.engine, won + 2, Open)
            && (forall m | m in p.engine.rounds && m > won + 1 :: next.engine.rounds[m] == p.engine.rounds[m])
            && next.tracker.lastSnapshot == Some(Scored(won, seconds))
            && next.tracker.roundInProgress == ScoreRead(p.tracker, Scored(won, seconds)).roundInProgress
            && next.tracker.lockedRound == Some(won + 1)
  {
    var now := Scored(won, seconds);
    DeliveredSignals(p.tracker, p.engine, Delivered(won, seconds, question));
    UnseenLock(Apply(p.engine, SnapshotSeen(now), question, false), won + 1, question);
  }

  /** Five rounds, a live clock, then a score of two and a live clock: rounds 7 and 4 are open together. */
  lemma AFallingScoreOpensTwoRounds(question: Condition)
    ensures var polls := [Delivered(5, 10, question)] + [Delivered(5, 100, question)] + [Delivered(2, 200, question)];
            var e := RunPolls(Start((1, 2), question), polls).engine;
            HasRound(e, 7, Open) && HasRound(e, 4, Open)
  {
    var start := Start((1, 2), question);
    FirstPoll(question);
    var one := [Delivered(5, 10, question)];
    var two := one + [Delivered(5, 100, question)];
    var three := two + [Delivered(2, 200, question)];
    OnePollMore(start, one, Delivered(5, 100, question));
    PollLocksUnseen(RunPolls(start, one), 5, 100, question);
    OnePollMore(start, two, Delivered(2, 200, question));
    PollLocksUnseen(RunPolls(start, two), 2, 200, question);
  }

  lemma OnePollMore(p: Pipeline, polls: seq<Poll>, poll: Poll)
    ensures RunPolls(p, polls + [poll]) == OnPoll(RunPolls(p, polls), poll)
  {
    assert (polls + [poll])[..|polls|] == polls;
  }

  lemma FirstPoll(question: Condition)
    ensures var p := RunPolls(Start((1, 2), question), [Delivered(5, 10, question)]);
            && Inv(p.engine) && !p.engine.finished && p.engine.rounds.Keys == {1}
            && p.tracker == TrackerState(Some(Scored(5, 10)), Some(6), None, None)
  {
    var start := Start((1, 2), question);
    var none: seq<Poll> := [];
    OpeningIsSound((1, 2), question);
    OnePollMore(start, none, Delivered(5, 10, question));
    assert none + [Delivered(5, 10, question)] == [Delivered(5, 10, question)];
    DeliveredSignals(start.tracker, start.engine, Delivered(5, 10, question));
  }
}

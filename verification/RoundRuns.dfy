/** What holds over whole runs of the tracker and the round engine. */
module RoundRuns {
  import opened Cs2Types
  import opened Cs2Settle
  import opened RoundTracker
  import opened RoundEngine
  import opened GatewayCache

  // ----- arbitrary signals

  /** Anything that can happen to the engine of an opened arena, in any order and any number of times. */
  datatype EngineStep =
    | OnSignal(signal: Signal, question: Condition, finishes: bool)
    | OpenRoundOne(question: Condition)
    | FinishArena

  function Step(e: Engine, step: EngineStep): Engine {
    match step
    case OnSignal(signal, question, finishes) => Apply(e, signal, question, finishes)
    case OpenRoundOne(question) => HandleOpen(e, 1, question)
    case FinishArena => Finish(e)
  }

  function Run(e: Engine, steps: seq<EngineStep>): Engine {
    if steps == [] then e else Step(Run(e, steps[..|steps| - 1]), steps[|steps| - 1])
  }

  /** An arena is created with its two teams and opens round one at once. */
  function Opening(teams: (Uuid, Uuid), question: Condition): Engine {
    HandleOpen(New(Some(teams)), 1, question)
  }

  lemma OpeningIsSound(teams: (Uuid, Uuid), question: Condition)
    ensures Inv(Opening(teams, question)) && 1 in Opening(teams, question).rounds
    ensures Opening(teams, question).log == [Opened(1)]
  {
    assert Replay([]) == Some(Statuses(map[]));
    OpenKeeps(New(Some(teams)), 1, question);
  }

  lemma {:induction false} StepKeeps(e: Engine, step: EngineStep)
    requires Inv(e) && 1 in e.rounds
    ensures Inv(Step(e, step)) && e.rounds.Keys <= Step(e, step).rounds.Keys
    ensures e.finished || step.FinishArena? ==> Step(e, step).finished
  {
    match step
    case OnSignal(signal, question, finishes) =>
      ApplyKeeps(e, signal, question, finishes);
      ResolvedRoundsStay(e, signal, question, finishes);
    case OpenRoundOne(_) =>
    case FinishArena => FinishKeeps(e);
  }

  lemma {:induction false} ResolvedRoundsStay(e: Engine, signal: Signal, question: Condition, finishes: bool)
    requires Inv(e)
    ensures e.rounds.Keys <= Apply(e, signal, question, finishes).rounds.Keys
    ensures forall m | m in e.rounds && !Pending(e.rounds[m]) :: Apply(e, signal, question, finishes).rounds[m] == e.rounds[m]
  {
    match signal
    case SnapshotSeen(_) =>
    case RoundLock(n) => if n !in e.rounds { VoidEachEffect(e, e.order, Some(n)); }
    case RoundEnd(n, after) => if CanSettle(e, n) { SettleKeeps(e, n, e.baselines[n], after, finishes); }
    case MatchEnd => MatchEndKeeps(e, finishes);
  }

  /**
   * Over every run the callbacks replay to exactly the engine's statuses, and once the arena is
   * finished no round is open or locked, however the run goes on.
   */
  lemma {:induction false} EveryRunIsLegal(teams: (Uuid, Uuid), question: Condition, steps: seq<EngineStep>, k: nat)
    requires k <= |steps|
    ensures var e := Run(Opening(teams, question), steps);
            && Inv(e) && 1 in e.rounds
            && (Run(Opening(teams, question), steps[..k]).finished ==> e.finished && Quiet(e))
    decreases |steps|
  {
    OpeningIsSound(teams, question);
    if steps == [] {
      assert steps[..k] == steps;
    } else {
      var shorter := steps[..|steps| - 1];
      EveryRunIsLegal(teams, question, shorter, if k < |steps| then k else 0);
      StepKeeps(Run(Opening(teams, question), shorter), steps[|steps| - 1]);
      if k < |steps| { assert shorter[..k] == steps[..k]; } else { assert steps[..k] == steps; }
    }
  }

  /** Opening round one before anything can finish the arena is what this relies on. */
  lemma OpenAfterFinish(e: Engine, question: Condition)
    requires Inv(e) && e.finished
    ensures Quiet(HandleOpen(e, 1, question)) <==> 1 in e.rounds || e.teams.None?
  {
    var after := HandleOpen(e, 1, question);
    if 1 !in e.rounds && e.teams.Some? {
      assert Pending(after.rounds[1]);
    }
  }

  predicate Terminal(event: RoundEvent) { event.WasSettled? || event.WasVoided? }

  lemma {:induction false} ReplayMeaning(log: seq<RoundEvent>)
    requires Replay(log).Some?
    ensures var m := Replay(log).value;
            && (forall n :: n in m <==> Opened(n) in log)
            && (forall n | n in m :: m[n] == Locked ==> WasLocked(n) in log)
            && (forall n | n in m :: m[n] == Open ==> WasLocked(n) !in log)
            && (forall e | e in log && Terminal(e) :: e.number in m && m[e.number] in {Settled, Voided})
            && (forall e | e in log :: e.number in m)
  {
    if log != [] {
      var shorter, last := log[..|log| - 1], log[|log| - 1];
      ReplayMeaning(shorter);
      assert log == shorter + [last];
      assert forall e :: e in log <==> e in shorter || e == last;
    }
  }

  /** `later` may come after `earlier`: of one round, nothing follows its end and it opens and locks once. */
  predicate MayFollow(earlier: RoundEvent, later: RoundEvent) {
    earlier.number == later.number ==>
      !Terminal(earlier) && !later.Opened? && (earlier.WasLocked? ==> Terminal(later))
  }

  /** In a legal log each round is opened once, locked at most once and ended at most once, in that order. */
  lemma {:induction false} LifeOfARound(log: seq<RoundEvent>)
    requires Replay(log).Some?
    ensures forall i, j | 0 <= i < j < |log| :: MayFollow(log[i], log[j])
  {
    if log != [] {
      var shorter, last := log[..|log| - 1], log[|log| - 1];
      LifeOfARound(shorter);
      ReplayMeaning(shorter);
      forall i | 0 <= i < |shorter| ensures MayFollow(log[i], last) {
        assert log[i] in shorter;
      }
    }
  }

  /** Nothing happens to a round before it opened, and it is never settled without having been locked. */
  lemma {:induction false} NothingUnannounced(log: seq<RoundEvent>, j: nat)
    requires Replay(log).Some? && j < |log|
    ensures !log[j].Opened? ==> Opened(log[j].number) in log[..j]
    ensures log[j].WasSettled? ==> WasLocked(log[j].number) in log[..j]
  {
    var shorter := log[..|log| - 1];
    if j < |shorter| {
      NothingUnannounced(shorter, j);
      assert shorter[..j] == log[..j];
    } else {
      ReplayMeaning(shorter);
    }
  }
}

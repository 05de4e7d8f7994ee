/** Tracker and engine together, over every stream of polls. */
module TrackedRuns {
  import opened Cs2Types
  import opened Cs2Settle
  import opened RoundTracker
  import opened RoundEngine
  import opened RoundRuns
  import opened GatewayCache

  /** `delivered` is false while no arena listens; the tracker follows the feed all the same. */
  datatype Poll = Poll(snapshot: Option<GameSnapshot>, question: Condition, finishes: bool, delivered: bool)

  /** A match end also finishes the arena: its second subscriber runs after the engine. */
  function Deliver(e: Engine, signal: Signal, question: Condition, finishes: bool): Engine {
    var applied := Apply(e, signal, question, finishes);
    if signal.MatchEnd? then Finish(applied) else applied
  }

  function DeliverAll(e: Engine, signals: seq<Signal>, question: Condition, finishes: bool): Engine
    decreases |signals|
  {
    if signals == [] then e
    else DeliverAll(Deliver(e, signals[0], question, finishes), signals[1..], question, finishes)
  }

  datatype Pipeline = Pipeline(tracker: TrackerState, engine: Engine)

  function OnPoll(p: Pipeline, poll: Poll): Pipeline {
    var (tracker, signals) := Track(p.tracker, poll.snapshot);
    Pipeline(tracker, if poll.delivered then DeliverAll(p.engine, signals, poll.question, poll.finishes) else p.engine)
  }

  function Start(teams: (Uuid, Uuid), question: Condition): Pipeline {
    Pipeline(INITIAL, Opening(teams, question))
  }

  function RunPolls(p: Pipeline, polls: seq<Poll>): Pipeline {
    if polls == [] then p else OnPoll(RunPolls(p, polls[..|polls| - 1]), polls[|polls| - 1])
  }

  /** The engine after the snapshot, after the end, and after the lock of one poll. */
  function AfterEnd(t: TrackerState, e: Engine, now: GameSnapshot, poll: Poll): Engine {
    var seen := Apply(e, SnapshotSeen(now), poll.question, poll.finishes);
    if EndsRound(t, now) then HandleRoundEnd(seen, DeriveRoundNumber(now) - 1, now, poll.finishes) else seen
  }

  function AfterLock(t: TrackerState, e: Engine, now: GameSnapshot, poll: Poll): Engine {
    var ended := AfterEnd(t, e, now, poll);
    if LocksRound(t, now) then HandleRoundLock(ended, DeriveRoundNumber(now), poll.question) else ended
  }

  predicate NewTeams(t: TrackerState, now: GameSnapshot) {
    t.lastSnapshot.Some? && !HaveSameTeams(t.lastSnapshot.value, now)
  }

  lemma DeliverCons(e: Engine, signal: Signal, rest: seq<Signal>, question: Condition, finishes: bool)
    ensures DeliverAll(e, [signal] + rest, question, finishes)
            == DeliverAll(Deliver(e, signal, question, finishes), rest, question, finishes)
  {
    assert ([signal] + rest)[1..] == rest;
  }

  lemma DeliveredSignals(t: TrackerState, e: Engine, poll: Poll)
    ensures DeliverAll(e, Track(t, poll.snapshot).1, poll.question, poll.finishes) ==
            match poll.snapshot
            case None => if t.lastSnapshot.None? then e else Finish(HandleMatchEnd(e, poll.finishes))
            case Some(now) =>
              if NewTeams(t, now) then Apply(e, SnapshotSeen(now), poll.question, poll.finishes)
              else AfterLock(t, e, now, poll)
  {
    var q, f := poll.question, poll.finishes;
    match poll.snapshot
    case None =>
    case Some(now) =>
      if !NewTeams(t, now) {
        var n := DeriveRoundNumber(now);
        var seen, end, lock := SnapshotSeen(now), RoundEnd(n - 1, now), RoundLock(n);
        var ends := if EndsRound(t, now) then [end] else [];
        var locks := if LocksRound(t, now) then [lock] else [];
        assert Track(t, poll.snapshot).1 == [seen] + (ends + locks);
        DeliverCons(e, seen, ends + locks, q, f);
        var e1 := Deliver(e, seen, q, f);
        if EndsRound(t, now) {
          DeliverCons(e1, end, locks, q, f);
        } else {
          assert ends + locks == locks;
        }
        if LocksRound(t, now) {
          assert locks == [lock] + [];
          DeliverCons(AfterEnd(t, e, now, poll), lock, [], q, f);
        }
      }
  }

  // ----- a settlement never diffs across two rounds

  predicate DiffsItsRound(event: RoundEvent) {
    event.WasSettled? ==>
      && DeriveRoundNumber(event.before) == event.number
      && DeriveRoundNumber(event.after) == event.number + 1
      && HaveSameTeams(event.before, event.after)
  }

  ghost predicate Exact(e: Engine) {
    && (forall n | n in e.baselines :: DeriveRoundNumber(e.baselines[n]) == n)
    && (forall i | 0 <= i < |e.log| :: DiffsItsRound(e.log[i]))
  }

  lemma {:induction false} VoidingKeepsExact(e: Engine, v: Engine, numbers: seq<int>, through: Option<int>)
    requires Exact(e) && VoidsExactly(e, v, numbers, through)
    ensures Exact(v)
  {
    forall i | 0 <= i < |v.log| ensures DiffsItsRound(v.log[i]) {
      if i < |e.log| { assert v.log[i] == e.log[i]; }
    }
  }

  lemma {:induction false} FinishKeepsExact(e: Engine)
    requires Inv(e) && Exact(e)
    ensures Exact(Finish(e))
  {
    var f := e.(finished := true);
    VoidEachEffect(f, f.order, None);
    VoidingKeepsExact(f, Finish(e), f.order, None);
  }

  lemma {:induction false} LockKeepsExact(e: Engine, n: int, question: Condition)
    requires Inv(e) && Exact(e)
    requires e.lastLive.Some? ==> DeriveRoundNumber(e.lastLive.value) == n
    ensures Exact(HandleRoundLock(e, n, question))
  {
    if n !in e.rounds {
      VoidEachEffect(e, e.order, Some(n));
      VoidingKeepsExact(e, VoidRemaining(e, Some(n)), e.order, Some(n));
    }
  }

  lemma {:induction false} SettleKeepsExact(e: Engine, n: int, after: GameSnapshot, finishes: bool)
    requires Inv(e) && Exact(e) && CanSettle(e, n)
    requires DeriveRoundNumber(after) == n + 1
    ensures Exact(SettleWithBaseline(e, n, after, finishes))
  {
    match ResolveCs2Settlement(e.rounds[n].condition, e.baselines[n], after)
    case Invalid(_) =>
    case Decided(answer) =>
      MarkSettledKeeps(e, n, e.baselines[n], after, answer);
      var settled := MarkSettled(e, n, e.baselines[n], after, answer);
      assert Exact(settled);
      if finishes { FinishKeepsExact(settled); }
  }

  lemma {:induction false} MatchEndExact(e: Engine, finishes: bool)
    requires Inv(e) && Exact(e)
    ensures Inv(Finish(HandleMatchEnd(e, finishes))) && Exact(Finish(HandleMatchEnd(e, finishes)))
  {
    var settled := SettleLastRound(e, finishes);
    if settled != e {
      var n := DeriveRoundNumber(e.lastLive.value) - 1;
      SettleKeeps(e, n, e.baselines[n], e.lastLive.value, finishes);
      SettleKeepsExact(e, n, e.lastLive.value, finishes);
    }
    VoidEachEffect(settled, settled.order, None);
    VoidingKeepsExact(settled, VoidRemaining(settled, None), settled.order, None);
    MatchEndKeeps(e, finishes);
    FinishKeeps(HandleMatchEnd(e, finishes));
    FinishKeepsExact(HandleMatchEnd(e, finishes));
  }

  lemma {:induction false} AfterEndKeeps(t: TrackerState, e: Engine, now: GameSnapshot, poll: Poll)
    requires Inv(e)
    ensures Inv(AfterEnd(t, e, now, poll))
    ensures AfterEnd(t, e, now, poll).lastLive == Some(now) && AfterEnd(t, e, now, poll).teams.Some?
    ensures Exact(e) ==> Exact(AfterEnd(t, e, now, poll))
  {
    var n := DeriveRoundNumber(now) - 1;
    var seen := Apply(e, SnapshotSeen(now), poll.question, poll.finishes);
    assert Inv(seen);
    if EndsRound(t, now) && CanSettle(seen, n) {
      SettleKeeps(seen, n, seen.baselines[n], now, poll.finishes);
      if Exact(e) { SettleKeepsExact(seen, n, now, poll.finishes); }
    }
  }

  lemma {:induction false} PollKeeps(p: Pipeline, poll: Poll)
    requires Inv(p.engine) && Exact(p.engine)
    ensures Inv(OnPoll(p, poll).engine) && Exact(OnPoll(p, poll).engine)
  {
    DeliveredSignals(p.tracker, p.engine, poll);
    match poll.snapshot
    case None => MatchEndExact(p.engine, poll.finishes);
    case Some(now) =>
      AfterEndKeeps(p.tracker, p.engine, now, poll);
      LockKeeps(AfterEnd(p.tracker, p.engine, now, poll), DeriveRoundNumber(now), poll.question);
      LockKeepsExact(AfterEnd(p.tracker, p.engine, now, poll), DeriveRoundNumber(now), poll.question);
  }

  /**
   * Over every poll stream, with any polls missed by the arena: a settled round is diffed between a
   * snapshot taken while that round was played and one taken right after it, of the same two teams.
   */
  lemma {:induction false} SettlementsNeverMixRounds(teams: (Uuid, Uuid), question: Condition, polls: seq<Poll>)
    ensures var e := RunPolls(Start(teams, question), polls).engine;
            Inv(e) && Exact(e)
  {
    if polls == [] {
      OpeningIsSound(teams, question);
    } else {
      SettlementsNeverMixRounds(teams, question, polls[..|polls| - 1]);
      PollKeeps(RunPolls(Start(teams, question), polls[..|polls| - 1]), polls[|polls| - 1]);
    }
  }

  /** So for every settled round, asking who won it gives opposite answers for the two teams. */
  lemma SettledRoundsHaveOneWinner(
    teams: (Uuid, Uuid), question: Condition, polls: seq<Poll>, event: RoundEvent, c1: Condition, c2: Condition)
    requires event in RunPolls(Start(teams, question), polls).engine.log && event.WasSettled?
    requires AsksWinner(c1, event.before.first.teamId) && AsksWinner(c2, event.before.second.teamId)
    ensures {ResolveCs2Settlement(c1, event.before, event.after), ResolveCs2Settlement(c2, event.before, event.after)}
            == {Decided(Yes), Decided(No)}
  {
    SettlementsNeverMixRounds(teams, question, polls);
    WinnerQuestionsAreOpposite(c1, c2, event.before, event.after);
  }
}

/** With a steady feed, one round is open at a time, and the reconnect cache knows which. */
module OneOpenRound {
  import opened Cs2Types
  import opened Cs2Settle
  import opened RoundTracker
  import opened RoundEngine
  import opened RoundRuns
  import opened TrackedRuns
  import opened GatewayCache

  /** Every poll reaches the arena, shows the same two teams, and never takes a scored round back. */
  ghost predicate Steady(polls: seq<Poll>) {
    && (forall i | 0 <= i < |polls| :: polls[i].delivered)
    && (forall i | 0 <= i < |polls| && polls[i].snapshot.Some? :: DeriveRoundNumber(polls[i].snapshot.value) >= 1)
    && (forall i, j | 0 <= i < j < |polls| && polls[i].snapshot.Some? && polls[j].snapshot.Some? ::
          && HaveSameTeams(polls[i].snapshot.value, polls[j].snapshot.value)
          && DeriveRoundNumber(polls[i].snapshot.value) <= DeriveRoundNumber(polls[j].snapshot.value))
  }

  /** The round that waits for answers: one past the last locked one. */
  function Top(t: TrackerState): int {
    if t.lockedRound.None? then 1 else t.lockedRound.value + 1
  }

  /** The tracker will still report the end of locked round `l`, or has already given it up. */
  predicate EndExpected(t: TrackerState, l: int) {
    t.roundInProgress.Some? && ((t.roundInProgress.value == l && t.lockSnapshot.Some?) || t.roundInProgress.value >= l + 2)
  }

  predicate TrackerSane(t: TrackerState) {
    && (t.lastSnapshot.Some? ==> t.roundInProgress == Some(DeriveRoundNumber(t.lastSnapshot.value)))
    && (t.lockedRound.Some? ==>
          t.lockedRound.value >= 1 && t.roundInProgress.Some? && t.roundInProgress.value >= t.lockedRound.value)
  }

  ghost predicate OnlyOpen(t: TrackerState, e: Engine) {
    && HasRound(e, Top(t), Open)
    && LastOpened(e.log) == Some(Top(t))
    && (forall m | m in e.rounds && m != Top(t) ::
          m < Top(t) &&
          (Pending(e.rounds[m]) ==> t.lockedRound == Some(m) && HasRound(e, m, Locked) && m in e.baselines && EndExpected(t, m)))
  }

  ghost predicate Linked(t: TrackerState, e: Engine) {
    Inv(e) && TrackerSane(t) && (e.finished || OnlyOpen(t, e))
  }

  lemma {:induction false} EndKeepsLink(t: TrackerState, e: Engine, now: GameSnapshot, poll: Poll)
    requires Linked(t, e) && !NewTeams(t, now)
    requires t.roundInProgress.Some? ==> t.roundInProgress.value <= DeriveRoundNumber(now)
    requires t.lockedRound.Some? ==> t.lastSnapshot.Some?
    ensures Linked(ScoreRead(t, now).(lastSnapshot := Some(now)), AfterEnd(t, e, now, poll))
  {
    var n := DeriveRoundNumber(now) - 1;
    var seen := Apply(e, SnapshotSeen(now), poll.question, poll.finishes);
    var ended := AfterEnd(t, e, now, poll);
    AfterEndKeeps(t, e, now, poll);
    if EndsRound(t, now) && CanSettle(seen, n) {
      SettleKeeps(seen, n, seen.baselines[n], now, poll.finishes);
      if !ended.finished {
        SettleKeepsLastOpened(seen, n, now, poll.finishes);
        SettledLink(t, e, ended, now);
      }
    } else {
      ScoreLink(t, e, ended, now);
    }
  }

  /** The round in progress was settled. */
  lemma SettledLink(t: TrackerState, e: Engine, s: Engine, now: GameSnapshot)
    requires Linked(t, e) && !e.finished && Inv(s) && !s.finished && EndsRound(t, now)
    requires t.lockedRound.Some? ==> t.lastSnapshot.Some?
    requires var n := DeriveRoundNumber(now) - 1;
             && HasRound(e, n, Locked) && s.rounds.Keys == e.rounds.Keys && !Pending(s.rounds[n])
             && LastOpened(s.log) == LastOpened(e.log)
             && (forall m | m in e.rounds && m != n :: s.rounds[m] == e.rounds[m])
             && s.baselines == e.baselines - {n}
    ensures Linked(ScoreRead(t, now).(lastSnapshot := Some(now)), s)
  {
  }

  /** Nothing was settled. */
  lemma ScoreLink(t: TrackerState, e: Engine, s: Engine, now: GameSnapshot)
    requires Linked(t, e) && Inv(s) && s.finished == e.finished
    requires t.roundInProgress.Some? ==> t.roundInProgress.value <= DeriveRoundNumber(now)
    requires t.lockedRound.Some? ==> t.lastSnapshot.Some?
    requires s.rounds == e.rounds && s.log == e.log && s.baselines == e.baselines
    requires EndsRound(t, now) ==> !CanSettle(e, DeriveRoundNumber(now) - 1)
    ensures Linked(ScoreRead(t, now).(lastSnapshot := Some(now)), s)
  {
  }

  /** A settlement that does not finish the arena opens nothing and changes only its own round. */
  lemma {:induction false} SettleKeepsLastOpened(e: Engine, n: int, after: GameSnapshot, finishes: bool)
    requires Inv(e) && CanSettle(e, n) && !SettleWithBaseline(e, n, after, finishes).finished
    ensures var s := SettleWithBaseline(e, n, after, finishes);
            && LastOpened(s.log) == LastOpened(e.log)
            && (forall m | m in e.rounds && m != n :: m in s.rounds && s.rounds[m] == e.rounds[m])
            && s.baselines == e.baselines - {n}
  {
    var s := SettleWithBaseline(e, n, after, finishes);
    match ResolveCs2Settlement(e.rounds[n].condition, e.baselines[n], after)
    case Invalid(_) => LastOpenedUnchanged(e.log, s.log);
    case Decided(answer) =>
      if finishes {
        FinishKeeps(MarkSettled(e, n, e.baselines[n], after, answer)) by {
          MarkSettledKeeps(e, n, e.baselines[n], after, answer);
        }
      }
      LastOpenedUnchanged(e.log, s.log);
  }

  lemma {:induction false} OpenBecomesLast(e: Engine, n: int, question: Condition)
    requires n !in e.rounds && e.teams.Some?
    ensures LastOpened(HandleOpen(e, n, question).log) == Some(n)
  {
    assert (e.log + [Opened(n)])[|e.log|] == Opened(n);
  }

  lemma {:induction false} LockTopRound(t: TrackerState, e: Engine, question: Condition, now: GameSnapshot)
    requires Linked(t, e) && !e.finished && e.teams.Some? && e.lastLive == Some(now) && Top(t) == DeriveRoundNumber(now)
    ensures var l, n := HandleRoundLock(e, Top(t), question), Top(t);
            && HasRound(l, n, Locked) && HasRound(l, n + 1, Open) && n in l.baselines
            && LastOpened(l.log) == Some(n + 1)
            && (forall m | m in l.rounds && m !in {n, n + 1} :: m in e.rounds && l.rounds[m] == e.rounds[m])
  {
    var n := Top(t);
    var locked := e.(rounds := e.rounds[n := e.rounds[n].(status := Locked)],
                     log := e.log + [WasLocked(n)], baselines := e.baselines[n := now]);
    OpenBecomesLast(locked, n + 1, question);
  }

  lemma {:induction false} LockUnseenRound(t: TrackerState, e: Engine, n: int, question: Condition)
    requires Linked(t, e) && !e.finished && e.teams.Some? && n > Top(t)
    ensures var l := HandleRoundLock(e, n, question);
            && HasRound(l, n + 1, Open) && LastOpened(l.log) == Some(n + 1)
            && (forall m | m in l.rounds && m != n + 1 :: m <= Top(t) && !Pending(l.rounds[m]))
  {
    VoidEachEffect(e, e.order, Some(n));
    OpenBecomesLast(VoidRemaining(e, Some(n)), n + 1, question);
  }

  lemma {:induction false} LockKeepsLink(t: TrackerState, e: Engine, n: int, question: Condition, now: GameSnapshot)
    requires Linked(t, e) && e.teams.Some? && e.lastLive == Some(now) && DeriveRoundNumber(now) == n
    requires n >= 1 && t.lockedRound != Some(n) && t.roundInProgress == Some(n)
    ensures Linked(t.(lastSnapshot := Some(now), lockSnapshot := Some(now), lockedRound := Some(n)), HandleRoundLock(e, n, question))
    ensures forall m | m in HandleRoundLock(e, n, question).rounds && m < n ::
              !Pending(HandleRoundLock(e, n, question).rounds[m])
  {
    LockKeeps(e, n, question);
    var l := HandleRoundLock(e, n, question);
    if !e.finished {
      if n == Top(t) {
        LockTopRound(t, e, question, now);
        TopLockLinks(t, e, l, now);
      } else {
        LockUnseenRound(t, e, n, question);
        UnseenLockLinks(t, e, l, now);
      }
    } else {
      assert Quiet(l);
    }
  }

  /** The link after the lock `l` of a round that was never opened. */
  lemma UnseenLockLinks(t: TrackerState, e: Engine, l: Engine, now: GameSnapshot)
    requires Linked(t, e) && !e.finished && Inv(l)
    requires var n := DeriveRoundNumber(now);
             && n > Top(t) && n >= 1 && t.roundInProgress == Some(n)
             && HasRound(l, n + 1, Open) && LastOpened(l.log) == Some(n + 1)
             && (forall m | m in l.rounds && m != n + 1 :: m <= Top(t) && !Pending(l.rounds[m]))
    ensures var n := DeriveRoundNumber(now);
            && Linked(t.(lastSnapshot := Some(now), lockSnapshot := Some(now), lockedRound := Some(n)), l)
            && forall m | m in l.rounds && m < n :: !Pending(l.rounds[m])
  {
  }

  /** The link after the lock `l` of the open round. */
  lemma TopLockLinks(t: TrackerState, e: Engine, l: Engine, now: GameSnapshot)
    requires Linked(t, e) && !e.finished && Inv(l)
    requires var n := DeriveRoundNumber(now);
             && n == Top(t) && n >= 1 && t.roundInProgress == Some(n)
             && HasRound(l, n, Locked) && HasRound(l, n + 1, Open) && n in l.baselines && LastOpened(l.log) == Some(n + 1)
             && (forall m | m in l.rounds && m !in {n, n + 1} :: m in e.rounds && l.rounds[m] == e.rounds[m])
    ensures var n := DeriveRoundNumber(now);
            && Linked(t.(lastSnapshot := Some(now), lockSnapshot := Some(now), lockedRound := Some(n)), l)
            && forall m | m in l.rounds && m < n :: !Pending(l.rounds[m])
  {
  }

  ghost predicate Ready(p: Pipeline, polls: seq<Poll>) {
    && Linked(p.tracker, p.engine)
    && (p.tracker.lastSnapshot.None? ==> p.tracker == INITIAL)
    && (p.tracker.lastSnapshot.Some? ==>
          exists i | 0 <= i < |polls| :: polls[i].snapshot == p.tracker.lastSnapshot)
  }

  lemma {:induction false} PollKeepsReady(p: Pipeline, polls: seq<Poll>, poll: Poll)
    requires Ready(p, polls) && Steady(polls + [poll])
    ensures Ready(OnPoll(p, poll), polls + [poll])
    ensures poll.snapshot.Some? && LocksRound(p.tracker, poll.snapshot.value) ==>
              var e := OnPoll(p, poll).engine;
              forall m | m in e.rounds && m < DeriveRoundNumber(poll.snapshot.value) :: !Pending(e.rounds[m])
  {
    var all := polls + [poll];
    assert all[|polls|] == poll;
    DeliveredSignals(p.tracker, p.engine, poll);
    match poll.snapshot
    case None =>
      if p.tracker.lastSnapshot.Some? {
        MatchEndKeeps(p.engine, poll.finishes);
        FinishKeeps(HandleMatchEnd(p.engine, poll.finishes));
      }
    case Some(now) =>
      var t, n := p.tracker, DeriveRoundNumber(now);
      if t.lastSnapshot.Some? {
        var i :| 0 <= i < |polls| && polls[i].snapshot == t.lastSnapshot;
        assert all[i] == polls[i];
        assert HaveSameTeams(t.lastSnapshot.value, now);
      }
      EndKeepsLink(t, p.engine, now, poll);
      var scored := ScoreRead(t, now).(lastSnapshot := Some(now));
      AfterEndKeeps(t, p.engine, now, poll);
      if LocksRound(t, now) {
        LockKeepsLink(scored, AfterEnd(t, p.engine, now, poll), n, poll.question, now);
      }
  }

  lemma {:induction false} SteadyRunIsReady(teams: (Uuid, Uuid), question: Condition, polls: seq<Poll>)
    requires Steady(polls)
    ensures Ready(RunPolls(Start(teams, question), polls), polls)
  {
    OpeningIsSound(teams, question);
    if polls != [] {
      var shorter := polls[..|polls| - 1];
      SteadyRunIsReady(teams, question, shorter);
      assert polls == shorter + [polls[|polls| - 1]];
      PollKeepsReady(RunPolls(Start(teams, question), shorter), shorter, polls[|polls| - 1]);
    } else {
      assert Opening(teams, question).log[..0] == [];
    }
  }

  /**
   * On a steady feed at most one round is open, it is the highest-numbered one, and the reconnect
   * cache's open round is exactly the engine's: absent if and only if no round is open.
   */
  lemma {:induction false} OneOpenRoundAndTheCacheKnowsIt(teams: (Uuid, Uuid), question: Condition, polls: seq<Poll>)
    requires Steady(polls)
    ensures var e := RunPolls(Start(teams, question), polls).engine;
            && (forall n, m | HasRound(e, n, Open) && m in e.rounds :: m <= n)
            && (forall n :: CacheOf(e.log).openRound == Some(n) <==> HasRound(e, n, Open))
  {
    SteadyRunIsReady(teams, question, polls);
    var p := RunPolls(Start(teams, question), polls);
    CacheIsLastOpened(p.engine.log);
  }

  lemma LockSignalMeans(t: TrackerState, snapshot: Option<GameSnapshot>, n: int)
    requires RoundLock(n) in Track(t, snapshot).1
    ensures snapshot.Some? && LocksRound(t, snapshot.value) && n == DeriveRoundNumber(snapshot.value)
  {
  }

  /** Right after a poll that locked round `n`, every lower round is settled or voided. */
  lemma {:induction false} LockLeavesNothingBehind(teams: (Uuid, Uuid), question: Condition, polls: seq<Poll>, n: int)
    requires Steady(polls) && polls != []
    requires RoundLock(n) in Track(RunPolls(Start(teams, question), polls[..|polls| - 1]).tracker, polls[|polls| - 1].snapshot).1
    ensures var e := RunPolls(Start(teams, question), polls).engine;
            forall m | m in e.rounds && m < n :: !Pending(e.rounds[m])
  {
    var shorter := polls[..|polls| - 1];
    SteadyRunIsReady(teams, question, shorter);
    assert polls == shorter + [polls[|polls| - 1]];
    var before := RunPolls(Start(teams, question), shorter);
    LockSignalMeans(before.tracker, polls[|polls| - 1].snapshot, n);
    PollKeepsReady(before, shorter, polls[|polls| - 1]);
  }
}

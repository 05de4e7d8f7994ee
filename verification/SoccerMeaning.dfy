/** The soccer windows in the clock's and the events' own fields: when a window opens, locks and settles, and with what answer. */
module SoccerMeaning {
  import opened Cs2Types
  import opened Planner
  import opened SoccerSettlement
  import opened SoccerBatch
  import MatchSignals
  import opened SoccerFeed

  // ----- the planner

  /** The clock has come to the window's first minute, in its half or later. */
  predicate Begun(tick: ClockTick, w: int) {
    if w < 45 then tick.period in {Halftime, SecondHalf, FullTime} || (tick.period == FirstHalf && tick.minute >= w)
    else tick.period == FullTime || (tick.period == SecondHalf && tick.minute >= w)
  }

  predicate HalfBegun(tick: ClockTick, w: int) {
    if w < 45 then tick.period != Pre else tick.period in {SecondHalf, FullTime}
  }

  /** The clock does not run backwards from `a` to `b`, and no phase comes back. */
  predicate RunsOn(a: ClockTick, b: ClockTick) {
    match a.period
    case Pre => b.period != Pre || a.minute <= b.minute
    case FirstHalf => b.period in {Halftime, SecondHalf, FullTime} || (b.period == FirstHalf && a.minute <= b.minute)
    case Halftime => b.period in {SecondHalf, FullTime} || (b.period == Halftime && a.minute <= b.minute)
    case SecondHalf => b.period == FullTime || (b.period == SecondHalf && a.minute <= b.minute)
    case FullTime => b.period == FullTime && a.minute <= b.minute
  }

  /** The windows of a match, one every five minutes: 5 to 40 and 50 to 85. */
  function Start(i: nat): int { if i < 8 then 5 + 5 * i else 10 + 5 * i }

  /** Action `j` of the schedule comes due at `tick`. */
  predicate DueAt(j: nat, tick: ClockTick) {
    j < 32 && if j % 2 == 1 then Begun(tick, Start(j / 2)) else j == 0 || HalfBegun(tick, Start(j / 2))
  }

  ghost predicate AllDue(from: nat, to: nat, tick: ClockTick) { forall i: nat | from <= i <= to :: DueAt(i, tick) }

  lemma NextIsDue(s: PlannerState, tick: ClockTick)
    requires Sane(s)
    ensures Due(s, tick) <==> DueAt(Done(s), tick)
  {
    if s.openWindow.Some? { assert Done(s) == 2 * (s.nextIndex - 1) + 1; } else { assert Done(s) == 2 * s.nextIndex; }
  }

  lemma {:induction false} DoneExactly(s: PlannerState, tick: ClockTick, j: nat)
    requires Sane(s) && Done(s) <= j
    ensures Sane(Advance(s, tick)) && (j < Done(Advance(s, tick)) <==> AllDue(Done(s), j, tick))
    decreases Measure(s)
  {
    AdvanceStaysSane(s, tick);
    NextIsDue(s, tick);
    if Due(s, tick) {
      NextActionIsScheduled(s);
      if j > Done(s) {
        DoneExactly(AfterAction(s), tick, j);
        assert AllDue(Done(s), j, tick) <==> DueAt(Done(s), tick) && AllDue(Done(s) + 1, j, tick);
      }
    } else {
      assert !DueAt(Done(s), tick);
    }
  }

  lemma {:induction false} OnTheSchedule(from: nat, to: nat, j: nat)
    requires from <= to
    ensures Scheduled(j) in Schedule(from, to) <==> from <= j < to
    decreases if from <= to then to - from else 0
  {
    if from < to {
      OnTheSchedule(from + 1, to, j);
      if j != from { if j < from { ScheduleRepeatsNothing(j, from); } else { ScheduleRepeatsNothing(from, j); } }
    }
  }

  lemma DoneByThen(ticks: seq<ClockTick>, j: nat)
    requires ticks != [] && forall a, b | 0 <= a < b < |ticks| :: RunsOn(ticks[a], ticks[b])
    ensures Scheduled(j) in RunActions(INITIAL, ticks) <==> AllDue(0, j, ticks[|ticks| - 1])
  {
    var last := ticks[|ticks| - 1];
    assert forall a, b | 0 <= a < b < |ticks| :: NotLater(ticks[a], ticks[b]);
    OnlyTheLastTickMatters(INITIAL, ticks);
    AdvanceFollowsSchedule(INITIAL, last);
    assert Done(INITIAL) == 0;
    DoneExactly(INITIAL, last, j);
    OnTheSchedule(0, Done(Advance(INITIAL, last)), j);
  }

  /**
   * With a clock that never runs backwards: a window has been locked exactly if the clock has come to it, and opened
   * exactly if the one before has been locked and its half has begun; the first one opens with the first tick.
   */
  lemma WindowsFollowTheClock(ticks: seq<ClockTick>, i: nat)
    requires ticks != [] && forall a, b | 0 <= a < b < |ticks| :: RunsOn(ticks[a], ticks[b])
    requires i < 16
    ensures var actions, last := RunActions(INITIAL, ticks), ticks[|ticks| - 1];
            && (LockWindow(Start(i)) in actions <==> Begun(last, Start(i)))
            && (OpenWindow(Start(i)) in actions <==> i == 0 || (Begun(last, Start(i - 1)) && HalfBegun(last, Start(i))))
  {
    OnTheList(i);
    LockFollowsTheClock(ticks, i);
    OpeningFollowsTheClock(ticks, i);
  }

  lemma LockFollowsTheClock(ticks: seq<ClockTick>, i: nat)
    requires ticks != [] && forall a, b | 0 <= a < b < |ticks| :: RunsOn(ticks[a], ticks[b])
    requires i < 16
    ensures Scheduled(2 * i + 1) in RunActions(INITIAL, ticks) <==> Begun(ticks[|ticks| - 1], Start(i))
  {
    DoneByThen(ticks, 2 * i + 1);
    LocksDue(i, ticks[|ticks| - 1]);
  }

  lemma OpeningFollowsTheClock(ticks: seq<ClockTick>, i: nat)
    requires ticks != [] && forall a, b | 0 <= a < b < |ticks| :: RunsOn(ticks[a], ticks[b])
    requires i < 16
    ensures var last := ticks[|ticks| - 1];
            Scheduled(2 * i) in RunActions(INITIAL, ticks)
            <==> i == 0 || (Begun(last, Start(i - 1)) && HalfBegun(last, Start(i)))
  {
    DoneByThen(ticks, 2 * i);
    OpeningDue(i, ticks[|ticks| - 1]);
  }

  lemma OpeningDue(i: nat, tick: ClockTick)
    requires i < 16
    ensures AllDue(0, 2 * i, tick) <==> i == 0 || (Begun(tick, Start(i - 1)) && HalfBegun(tick, Start(i)))
  {
    if i > 0 { LocksDue(i - 1, tick); }
  }

  lemma OnTheList(i: nat)
    requires i < 16
    ensures Scheduled(2 * i) == OpenWindow(Start(i)) && Scheduled(2 * i + 1) == LockWindow(Start(i))
  {
    assert 2 * i / 2 == i && (2 * i + 1) / 2 == i;
  }

  /** All that is due up to a window's lock, and up to the next opening. */
  lemma LocksDue(i: nat, tick: ClockTick)
    requires i < 16
    ensures AllDue(0, 2 * i + 1, tick) <==> Begun(tick, Start(i))
    ensures i < 15 ==> (AllDue(0, 2 * (i + 1), tick) <==> Begun(tick, Start(i)) && HalfBegun(tick, Start(i + 1)))
  {
    assert DueAt(2 * i + 1, tick) == Begun(tick, Start(i)) by { assert (2 * i + 1) / 2 == i; }
    if Begun(tick, Start(i)) { EarlierOnesAreDue(tick, 2 * i + 1); }
    if i < 15 {
      assert DueAt(2 * (i + 1), tick) == HalfBegun(tick, Start(i + 1));
      assert AllDue(0, 2 * (i + 1), tick) <==> AllDue(0, 2 * i + 1, tick) && DueAt(2 * (i + 1), tick);
    }
  }

  lemma EarlierOnesAreDue(tick: ClockTick, j: nat)
    requires j % 2 == 1 && j < 32 && Begun(tick, Start(j / 2))
    ensures AllDue(0, j, tick)
  {
    forall i: nat | i <= j ensures DueAt(i, tick) { assert Start(i / 2) <= Start(j / 2); }
  }

  // ----- which locks reach the settlement

  /** What the planner did on message `i`. */
  function ActionsAt(feed: seq<Message>, i: nat): seq<RoundAction>
    requires i < |feed|
  {
    var f := AfterFeed(feed[..i]);
    var tick := TickOf(MatchSignals.ClockPart(f.producer, feed[i].raw));
    if tick == None then [] else Actions(f.planner, tick.value)
  }

  /** The window opened on message `i`, and the arena was not finished then. */
  predicate OpensAt(feed: seq<Message>, i: int, w: int) {
    0 <= i < |feed| && !feed[i].finished && OpenWindow(w) in ActionsAt(feed, i)
  }

  predicate LocksAt(feed: seq<Message>, i: int, w: int) { 0 <= i < |feed| && LockWindow(w) in ActionsAt(feed, i) }

  ghost predicate LockReaches(inputs: seq<Input>, w: int) { exists n :: 0 <= n < |inputs| && IsLockOf(inputs[n], w) }

  ghost predicate EverOpened(feed: seq<Message>, w: int) { exists i :: OpensAt(feed, i, w) }
  ghost predicate EverLocked(feed: seq<Message>, w: int) { exists i :: LocksAt(feed, i, w) }

  lemma {:induction false} OpenedMeans(actions: seq<RoundAction>, known: set<int>, finished: bool, w: int)
    ensures w in OpenedAfter(actions, known, finished) <==> w in known || (!finished && OpenWindow(w) in actions)
  {
    if actions != [] {
      assert actions == actions[..|actions| - 1] + [actions[|actions| - 1]];
      OpenedMeans(actions[..|actions| - 1], known, finished, w);
    }
  }

  lemma ReachesOneMore(inputs: seq<Input>, more: seq<Input>, w: int)
    ensures LockReaches(inputs + more, w) <==> LockReaches(inputs, w) || LockReaches(more, w)
  {
    var all := inputs + more;
    if n :| 0 <= n < |inputs| && IsLockOf(inputs[n], w) { assert IsLockOf(all[n], w); }
    if n :| 0 <= n < |more| && IsLockOf(more[n], w) { assert IsLockOf(all[|inputs| + n], w); }
    if n :| 0 <= n < |all| && IsLockOf(all[n], w) {
      if n < |inputs| { assert IsLockOf(inputs[n], w); } else { assert IsLockOf(more[n - |inputs|], w); }
    }
  }

  lemma LastLock(actions: seq<RoundAction>, known: set<int>, finished: bool, ask: int -> Question, w: int)
    requires actions != []
    ensures var before, last := actions[..|actions| - 1], actions[|actions| - 1];
            LockReaches(Locks(actions, known, finished, ask), w)
            <==> || LockReaches(Locks(before, known, finished, ask), w)
                 || (last == LockWindow(w) && w in OpenedAfter(before, known, finished))
  {
    var before, last := actions[..|actions| - 1], actions[|actions| - 1];
    var more := if last.LockWindow? && last.windowStart in OpenedAfter(before, known, finished)
                then [Lock(RoundFor(ask, last.windowStart))] else [];
    ReachesOneMore(Locks(before, known, finished, ask), more, w);
    if last == LockWindow(w) && w in OpenedAfter(before, known, finished) { assert IsLockOf(more[0], w); }
  }

  lemma LastOnTheSchedule(a: nat, b: nat)
    requires a < b
    ensures Schedule(a, b)[..b - 1 - a] == Schedule(a, b - 1) && Schedule(a, b)[b - 1 - a] == Scheduled(b - 1)
    ensures forall x :: x in Schedule(a, b) <==> x in Schedule(a, b - 1) || x == Scheduled(b - 1)
  {
    ScheduleInTwo(a, b - 1, b);
    assert Schedule(b - 1, b) == [Scheduled(b - 1)];
  }

  /** Along the schedule a lock reaches settlement exactly if its window is known by the end of it. */
  lemma {:induction false} LocksAlong(a: nat, b: nat, known: set<int>, finished: bool, ask: int -> Question, w: int)
    requires a <= b
    ensures LockReaches(Locks(Schedule(a, b), known, finished, ask), w)
            <==> LockWindow(w) in Schedule(a, b) && w in OpenedAfter(Schedule(a, b), known, finished)
  {
    if a < b {
      LocksAlong(a, b - 1, known, finished, ask, w);
      LastOnTheSchedule(a, b);
      if Scheduled(b - 1) == OpenWindow(w) { NoLockYet(a, b - 1, w); }
      AlongOneMore(Schedule(a, b), known, finished, ask, w);
    }
  }

  lemma AlongOneMore(actions: seq<RoundAction>, known: set<int>, finished: bool, ask: int -> Question, w: int)
    requires actions != []
    requires var before, last := actions[..|actions| - 1], actions[|actions| - 1];
             && (last == OpenWindow(w) ==> LockWindow(w) !in before)
             && (LockReaches(Locks(before, known, finished, ask), w)
                 <==> LockWindow(w) in before && w in OpenedAfter(before, known, finished))
    ensures LockReaches(Locks(actions, known, finished, ask), w)
            <==> LockWindow(w) in actions && w in OpenedAfter(actions, known, finished)
  {
    var before, last := actions[..|actions| - 1], actions[|actions| - 1];
    assert actions == before + [last];
    LastLock(actions, known, finished, ask, w);
    OpenedMeans(before, known, finished, w);
    OpenedMeans(actions, known, finished, w);
  }

  /** Nothing locks a window before the schedule opens it. */
  lemma NoLockYet(a: nat, j: nat, w: int)
    requires a <= j && Scheduled(j) == OpenWindow(w)
    ensures LockWindow(w) !in Schedule(a, j)
  {
    assert Scheduled(j + 1) == LockWindow(w) by { assert j % 2 == 0 && (j + 1) / 2 == j / 2; }
    OnTheSchedule(a, j, j + 1);
  }

  /**
   * On every raw feed the settlement is told of a window's lock exactly if the planner locked it, and had opened it while
   * the arena was not finished.
   */
  lemma {:induction false} LockReachesExactlyWhen(feed: seq<Message>, ask: int -> Question, w: int)
    ensures w in AfterFeed(feed).known <==> EverOpened(feed, w)
    ensures LockReaches(Inputs(feed, ask), w) <==> EverOpened(feed, w) && EverLocked(feed, w)
  {
    if feed != [] {
      var n := |feed| - 1;
      LockReachesExactlyWhen(feed[..n], ask, w);
      EverOpenedOneMore(feed, w);
      EverLockedOneMore(feed, w);
      MessageReaches(feed, ask, w);
      ReachesOneMore(Inputs(feed[..n], ask), Reaches(AfterFeed(feed[..n]), feed[n], ask), w);
      if EverLocked(feed[..n], w) { OpenedOnlyBefore(feed, w); }
    }
  }

  lemma SameBefore(feed: seq<Message>, i: nat)
    requires feed != [] && i < |feed| - 1
    ensures ActionsAt(feed[..|feed| - 1], i) == ActionsAt(feed, i)
  {
    assert feed[..|feed| - 1][..i] == feed[..i];
  }

  lemma OpensBefore(feed: seq<Message>, i: nat, w: int)
    requires feed != [] && i < |feed| - 1
    ensures OpensAt(feed[..|feed| - 1], i, w) == OpensAt(feed, i, w)
  {
    SameBefore(feed, i);
  }

  lemma LocksBefore(feed: seq<Message>, i: nat, w: int)
    requires feed != [] && i < |feed| - 1
    ensures LocksAt(feed[..|feed| - 1], i, w) == LocksAt(feed, i, w)
  {
    SameBefore(feed, i);
  }

  lemma EverOpenedOneMore(feed: seq<Message>, w: int)
    requires feed != []
    ensures EverOpened(feed, w) <==> EverOpened(feed[..|feed| - 1], w) || OpensAt(feed, |feed| - 1, w)
  {
    var n := |feed| - 1;
    if i :| OpensAt(feed, i, w) {
      if i < n { OpensBefore(feed, i, w); }
    }
    if i :| OpensAt(feed[..n], i, w) { OpensBefore(feed, i, w); }
  }

  lemma EverLockedOneMore(feed: seq<Message>, w: int)
    requires feed != []
    ensures EverLocked(feed, w) <==> EverLocked(feed[..|feed| - 1], w) || LocksAt(feed, |feed| - 1, w)
  {
    var n := |feed| - 1;
    if i :| LocksAt(feed, i, w) {
      if i < n { LocksBefore(feed, i, w); }
    }
    if i :| LocksAt(feed[..n], i, w) { LocksBefore(feed, i, w); }
  }

  lemma {:induction false} FromTheSchedule(from: nat, to: nat, action: RoundAction) returns (j: nat)
    requires from <= to && action in Schedule(from, to)
    ensures from <= j < to && Scheduled(j) == action
    decreases if from <= to then to - from else 0
  {
    if action == Scheduled(from) { j := from; } else { j := FromTheSchedule(from + 1, to, action); }
  }

  /** Message `n` takes the planner on along the schedule. */
  lemma ActionsAreScheduled(feed: seq<Message>)
    requires feed != []
    ensures var n := |feed| - 1;
            var a, b := Done(AfterFeed(feed[..n]).planner), Done(AfterFeed(feed).planner);
            a <= b && ActionsAt(feed, n) == Schedule(a, b)
  {
    var n := |feed| - 1;
    var f := AfterFeed(feed[..n]);
    var tick := TickOf(MatchSignals.ClockPart(f.producer, feed[n].raw));
    if tick != None { AdvanceFollowsSchedule(f.planner, tick.value); }
  }

  lemma {:induction false} LockedIsDone(feed: seq<Message>, w: int) returns (j: nat)
    requires EverLocked(feed, w)
    ensures j < Done(AfterFeed(feed).planner) && Scheduled(j) == LockWindow(w)
  {
    var n := |feed| - 1;
    EverLockedOneMore(feed, w);
    ActionsAreScheduled(feed);
    if LocksAt(feed, n, w) {
      j := FromTheSchedule(Done(AfterFeed(feed[..n]).planner), Done(AfterFeed(feed).planner), LockWindow(w));
    } else {
      j := LockedIsDone(feed[..n], w);
    }
  }

  /** A window locked on an earlier message is not opened any more. */
  lemma OpenedOnlyBefore(feed: seq<Message>, w: int)
    requires feed != [] && EverLocked(feed[..|feed| - 1], w)
    ensures OpenWindow(w) !in ActionsAt(feed, |feed| - 1)
  {
    ActionsAreScheduled(feed);
    if OpenWindow(w) in ActionsAt(feed, |feed| - 1) {
      var j := LockedIsDone(feed[..|feed| - 1], w);
      var k := FromTheSchedule(Done(AfterFeed(feed[..|feed| - 1]).planner), Done(AfterFeed(feed).planner), OpenWindow(w));
      assert false;
    }
  }

  lemma MessageReaches(feed: seq<Message>, ask: int -> Question, w: int)
    requires feed != []
    requires w in AfterFeed(feed[..|feed| - 1]).known <==> EverOpened(feed[..|feed| - 1], w)
    ensures w in AfterFeed(feed).known <==> EverOpened(feed[..|feed| - 1], w) || OpensAt(feed, |feed| - 1, w)
    ensures LockReaches(Reaches(AfterFeed(feed[..|feed| - 1]), feed[|feed| - 1], ask), w)
            <==> LocksAt(feed, |feed| - 1, w) && w in AfterFeed(feed).known
  {
    var n := |feed| - 1;
    var f, m := AfterFeed(feed[..n]), feed[n];
    ActionsAreScheduled(feed);
    OpenedMeans(ActionsAt(feed, n), f.known, m.finished, w);
    LocksAlong(Done(f.planner), Done(AfterFeed(feed).planner), f.known, m.finished, ask, w);
    OnlyLocksLock(feed, ask, w);
    KnownNext(feed);
  }

  lemma KnownNext(feed: seq<Message>)
    requires feed != []
    ensures AfterFeed(feed).known
         == OpenedAfter(ActionsAt(feed, |feed| - 1), AfterFeed(feed[..|feed| - 1]).known, feed[|feed| - 1].finished)
  {
  }

  /** What else reaches the settlement from the last message is no lock. */
  lemma OnlyLocksLock(feed: seq<Message>, ask: int -> Question, w: int)
    requires feed != []
    ensures var f, m := AfterFeed(feed[..|feed| - 1]), feed[|feed| - 1];
            LockReaches(Reaches(f, m, ask), w)
            <==> LockReaches(Locks(ActionsAt(feed, |feed| - 1), f.known, m.finished, ask), w)
  {
    var f, m := AfterFeed(feed[..|feed| - 1]), feed[|feed| - 1];
    var tick, event := TickOf(MatchSignals.ClockPart(f.producer, m.raw)), MatchSignals.EventOf(f.producer, m.raw);
    var told: seq<Input> := if event.Some? then [Happened(event.value)] else [];
    if tick == None {
      assert Reaches(f, m, ask) == told;
    } else {
      var locks := Locks(Actions(f.planner, tick.value), f.known, m.finished, ask);
      assert Reaches(f, m, ask) == locks + [Clock(tick.value)] + told;
      ReachesOneMore(locks, [Clock(tick.value)], w);
      ReachesOneMore(locks + [Clock(tick.value)], told, w);
    }
  }

  // ----- settling

  /** A confirmed event of the kind, and the team, that was asked for, in the five minutes of the window or on either end. */
  predicate Proves(q: Question, w: int, input: Input) {
    && input.Happened? && input.event.confirmed && input.event.kind == q.kind
    && (q.team == AnyTeam || input.event.team == q.team)
    && w <= input.event.minute <= w + 5
  }

  /** The clock is past the window's last minute, or its half is over. */
  predicate RunsOut(w: int, input: Input) {
    && input.Clock?
    && if w < 45 then input.tick.period in {Halftime, SecondHalf, FullTime} || (input.tick.period == FirstHalf && input.tick.minute > w + 5)
       else input.tick.period == FullTime || (input.tick.period == SecondHalf && input.tick.minute > w + 5)
  }

  predicate Ends(q: Question, w: int, input: Input) { Proves(q, w, input) || RunsOut(w, input) }

  /** Input `k` is the first that ends the window. */
  ghost predicate EndsFirst(q: Question, w: int, rest: seq<Input>, k: nat) {
    k < |rest| && Ends(q, w, rest[k]) && forall j | 0 <= j < k :: !Ends(q, w, rest[j])
  }

  function RoundOf(q: Question, w: int): Round { Round(q.id, w, w + 5, Condition(q.kind, q.team, w, w + 5)) }

  ghost predicate Proved(q: Question, w: int, rest: seq<Input>) { exists j :: 0 <= j < |rest| && Proves(q, w, rest[j]) }

  lemma {:induction false} AYesIsProved(q: Question, w: int, rest: seq<Input>)
    ensures Resolve(RoundOf(q, w).condition, EventsOf(rest)) == Yes <==> Proved(q, w, rest)
  {
    if rest != [] {
      var n := |rest| - 1;
      var c := RoundOf(q, w).condition;
      AYesIsProved(q, w, rest[..n]);
      ProvedOneMore(q, w, rest);
      if rest[n].Happened? {
        OneEventMore(c, EventsOf(rest[..n]), rest[n].event);
        assert Counts(c, rest[n].event) == Proves(q, w, rest[n]);
      } else {
        assert EventsOf(rest) == EventsOf(rest[..n]);
      }
    }
  }

  lemma ProvedOneMore(q: Question, w: int, rest: seq<Input>)
    requires rest != []
    ensures Proved(q, w, rest) <==> Proves(q, w, rest[|rest| - 1]) || Proved(q, w, rest[..|rest| - 1])
  {
    var n := |rest| - 1;
    if j :| 0 <= j < n && Proves(q, w, rest[..n][j]) { assert Proves(q, w, rest[j]); }
    if j :| 0 <= j < |rest| && Proves(q, w, rest[j]) { assert j < n ==> Proves(q, w, rest[..n][j]); }
  }

  lemma OneEventMore(c: Condition, events: seq<LiveEvent>, event: LiveEvent)
    ensures Resolve(c, events + [event]) == Yes <==> Resolve(c, events) == Yes || Counts(c, event)
  {
    var all := events + [event];
    if i :| 0 <= i < |events| && Counts(c, events[i]) { assert Counts(c, all[i]); }
    if Counts(c, event) { assert Counts(c, all[|events|]); }
    if i :| 0 <= i < |all| && Counts(c, all[i]) { assert i < |events| ==> Counts(c, events[i]); }
  }

  lemma ClosingMeans(q: Question, w: int, rest: seq<Input>, k: nat)
    requires k < |rest|
    ensures IsClosing(RoundOf(q, w), rest, k)
            <==> RunsOut(w, rest[k]) || (rest[k].Happened? && exists j :: 0 <= j <= k && Proves(q, w, rest[j]))
  {
    var sofar := rest[..k + 1];
    AYesIsProved(q, w, sofar);
    if j :| 0 <= j < |sofar| && Proves(q, w, sofar[j]) { assert Proves(q, w, rest[j]); }
    if j :| 0 <= j <= k && Proves(q, w, rest[j]) { assert Proves(q, w, sofar[j]); }
    assert rest[k].Clock? ==> (PastEnd(RoundOf(q, w), rest[k].tick) <==> RunsOut(w, rest[k]));
  }

  lemma {:induction false} NoneEndedBefore(q: Question, w: int, rest: seq<Input>, k: nat)
    requires k <= |rest|
    ensures NoneBefore(RoundOf(q, w), rest, k) <==> forall j | 0 <= j < k :: !Ends(q, w, rest[j])
  {
    forall j: nat | j < k && Ends(q, w, rest[j]) ensures IsClosing(RoundOf(q, w), rest, j) { ClosingMeans(q, w, rest, j); }
    if j: nat :| j < k && IsClosing(RoundOf(q, w), rest, j) {
      ClosingMeans(q, w, rest, j);
      if !RunsOut(w, rest[j]) {
        var i :| 0 <= i <= j && Proves(q, w, rest[i]);
        assert Ends(q, w, rest[i]);
      }
    }
  }

  lemma FirstEndCloses(q: Question, w: int, rest: seq<Input>, k: nat)
    requires EndsFirst(q, w, rest, k)
    ensures IsClosing(RoundOf(q, w), rest, k) && NoneBefore(RoundOf(q, w), rest, k)
    ensures BatchVerdict(RoundOf(q, w), rest, k)
         == Settlement(q.id, w, if Proves(q, w, rest[k]) then Yes else No, if Proves(q, w, rest[k]) then Early else WindowEnd)
  {
    ClosingMeans(q, w, rest, k);
    NoneEndedBefore(q, w, rest, k);
    EarlyIsYesAndTheEndIsNo(RoundOf(q, w), rest, k);
  }

  lemma {:induction false} LocksAskTheQuestion(actions: seq<RoundAction>, known: set<int>, finished: bool, ask: int -> Question)
    ensures forall i | 0 <= i < |Locks(actions, known, finished, ask)| ::
              var l := Locks(actions, known, finished, ask)[i]; l.Lock? && l.round == RoundOf(ask(l.round.windowStart), l.round.windowStart)
  {
    if actions != [] { LocksAskTheQuestion(actions[..|actions| - 1], known, finished, ask); }
  }

  lemma {:induction false} RoundsAskTheQuestion(feed: seq<Message>, ask: int -> Question, n: nat)
    requires n < |Inputs(feed, ask)| && Inputs(feed, ask)[n].Lock?
    ensures var r := Inputs(feed, ask)[n].round; r == RoundOf(ask(r.windowStart), r.windowStart)
  {
    var shorter, last := feed[..|feed| - 1], feed[|feed| - 1];
    var f := AfterFeed(shorter);
    if n < |Inputs(shorter, ask)| {
      RoundsAskTheQuestion(shorter, ask, n);
    } else {
      var tick := TickOf(MatchSignals.ClockPart(f.producer, last.raw));
      if tick.Some? { LocksAskTheQuestion(Actions(f.planner, tick.value), f.known, last.finished, ask); }
    }
  }

  /**
   * On every raw feed, a locked window settles with the first input after its lock that proves it or runs it out, and
   * never otherwise: with a yes, early, if that proves the question; with a no, at its end, if it runs out.
   */
  lemma SettledExactlyWhen(feed: seq<Message>, ask: int -> Question, n: nat)
    requires n < |Inputs(feed, ask)| && Inputs(feed, ask)[n].Lock?
    ensures var inputs := Inputs(feed, ask);
            var w, rest := inputs[n].round.windowStart, inputs[n + 1..];
            var told := OfWindow(Announced(EMPTY, inputs), w);
            && ((forall k | 0 <= k < |rest| :: !Ends(ask(w), w, rest[k])) ==> told == [])
            && (forall k: nat | EndsFirst(ask(w), w, rest, k) ::
                  told == [Settlement(ask(w).id, w, if Proves(ask(w), w, rest[k]) then Yes else No,
                                      if Proves(ask(w), w, rest[k]) then Early else WindowEnd)])
  {
    var inputs := Inputs(feed, ask);
    var w, rest := inputs[n].round.windowStart, inputs[n + 1..];
    EveryWindowSettlesFromItsHistory(feed, ask, n);
    RoundsAskTheQuestion(feed, ask, n);
    NoneEndedBefore(ask(w), w, rest, |rest|);
    forall k: nat | EndsFirst(ask(w), w, rest, k)
      ensures IsClosing(RoundOf(ask(w), w), rest, k) && NoneBefore(RoundOf(ask(w), w), rest, k)
      ensures BatchVerdict(RoundOf(ask(w), w), rest, k)
           == Settlement(ask(w).id, w, if Proves(ask(w), w, rest[k]) then Yes else No,
                         if Proves(ask(w), w, rest[k]) then Early else WindowEnd)
    {
      FirstEndCloses(ask(w), w, rest, k);
    }
  }
}

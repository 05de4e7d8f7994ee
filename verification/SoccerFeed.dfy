/** The soccer arena on a raw feed: signal producer, window planner and settlement engine in their bus order. */
module SoccerFeed {
  import opened Cs2Types
  import opened Planner
  import opened SoccerSettlement
  import opened SoccerBatch
  import opened MatchSignals

  /** What the question provider made up for a window. */
  datatype Question = Question(id: Uuid, kind: EventKind, team: Team)

  /** A raw message, and whether the arena was already finished when it came. */
  datatype Message = Message(raw: Raw, finished: bool)

  datatype Feed = Feed(producer: Producer, planner: PlannerState, known: set<int>)

  const START := Feed(FRESH, INITIAL, {})

  function RoundFor(ask: int -> Question, w: int): Round {
    var q := ask(w);
    Round(q.id, w, w + 5, Condition(q.kind, q.team, w, w + 5))
  }

  // ----- the round engine: planner actions to rounds

  /** A finished arena opens no more rounds. */
  function OpenedAfter(actions: seq<RoundAction>, known: set<int>, finished: bool): set<int> {
    if actions == [] then known
    else
      var last := actions[|actions| - 1];
      OpenedAfter(actions[..|actions| - 1], known, finished)
        + if last.OpenWindow? && !finished then {last.windowStart} else {}
  }

  /** The locks the settlement engine is told of: those of rounds that were opened. */
  function Locks(actions: seq<RoundAction>, known: set<int>, finished: bool, ask: int -> Question): seq<Input> {
    if actions == [] then []
    else
      var before, last := actions[..|actions| - 1], actions[|actions| - 1];
      Locks(before, known, finished, ask)
        + if last.LockWindow? && last.windowStart in OpenedAfter(before, known, finished)
          then [Lock(RoundFor(ask, last.windowStart))] else []
  }

  // ----- one signal, one message, a whole feed

  function TickOf(signals: seq<Signal>): Option<ClockTick> {
    if signals != [] && signals[0].ClockSignal? then Some(ClockTick(signals[0].period, signals[0].minute)) else None
  }

  function HearClock(f: Feed, m: Message): (next: Feed)
    requires Sane(f.planner)
    ensures Sane(next.planner)
  {
    var tick := TickOf(ClockPart(f.producer, m.raw));
    if tick.None? then f.(producer := Next(f.producer, m.raw))
    else
      AdvanceFollowsSchedule(f.planner, tick.value);
      Feed(Next(f.producer, m.raw), Advance(f.planner, tick.value),
           OpenedAfter(Actions(f.planner, tick.value), f.known, m.finished))
  }

  /**
   * What reaches the settlement engine from one message. The round engine subscribes before it, so the locks come
   * before the tick that caused them; the clock signal comes before the event.
   */
  function Reaches(f: Feed, m: Message, ask: int -> Question): seq<Input>
    requires Sane(f.planner)
  {
    var tick, event := TickOf(ClockPart(f.producer, m.raw)), EventOf(f.producer, m.raw);
    (if tick.Some? then Locks(Actions(f.planner, tick.value), f.known, m.finished, ask) + [Clock(tick.value)] else [])
      + if event.Some? then [Happened(event.value)] else []
  }

  function AfterFeed(feed: seq<Message>): (f: Feed)
    ensures Sane(f.planner)
  {
    if feed == [] then START else HearClock(AfterFeed(feed[..|feed| - 1]), feed[|feed| - 1])
  }

  function Inputs(feed: seq<Message>, ask: int -> Question): seq<Input> {
    if feed == [] then []
    else Inputs(feed[..|feed| - 1], ask) + Reaches(AfterFeed(feed[..|feed| - 1]), feed[|feed| - 1], ask)
  }

  // ----- locks come in window order

  predicate IsLockOf(input: Input, w: int) { input.Lock? && input.round.windowStart == w }

  /** All locks are of windows in `[from, to)`, and they rise. */
  ghost predicate LocksRise(inputs: seq<Input>, from: int, to: int) {
    && (forall i | 0 <= i < |inputs| && inputs[i].Lock? :: from <= inputs[i].round.windowStart < to)
    && (forall i, j | 0 <= i < j < |inputs| && inputs[i].Lock? && inputs[j].Lock? ::
          inputs[i].round.windowStart < inputs[j].round.windowStart)
  }

  lemma RiseOn(a: seq<Input>, b: seq<Input>, from: int, mid: int, to: int)
    requires LocksRise(a, from, mid) && LocksRise(b, mid, to) && from <= mid <= to
    ensures LocksRise(a + b, from, to)
  {
  }

  /** The window that the next lock is of, after `done` actions. */
  function NextLock(done: nat): int { WindowStart(done / 2) }

  lemma NextLockRises(a: nat, b: nat)
    requires a <= b
    ensures NextLock(a) <= NextLock(b)
    ensures a < b && a % 2 == 1 ==> NextLock(a) < NextLock(b)
  {
    assert a / 2 <= b / 2;
    if a < b && a % 2 == 1 { assert a / 2 + 1 <= b / 2; }
  }

  lemma {:induction false} ScheduledLocksRise(a: nat, b: nat, known: set<int>, finished: bool, ask: int -> Question)
    requires a <= b
    ensures LocksRise(Locks(Schedule(a, b), known, finished, ask), NextLock(a), NextLock(b))
  {
    if a < b {
      ScheduledLocksRise(a, b - 1, known, finished, ask);
      var actions := Schedule(a, b);
      ScheduleInTwo(a, b - 1, b);
      assert Schedule(b - 1, b) == [Scheduled(b - 1)];
      assert actions[..|actions| - 1] == Schedule(a, b - 1);
      assert actions[|actions| - 1] == Scheduled(b - 1);
      NextLockRises(a, b - 1);
      NextLockRises(b - 1, b);
      var more := if Scheduled(b - 1).LockWindow? && Scheduled(b - 1).windowStart in OpenedAfter(Schedule(a, b - 1), known, finished)
                  then [Lock(RoundFor(ask, Scheduled(b - 1).windowStart))] else [];
      RiseOn(Locks(Schedule(a, b - 1), known, finished, ask), more, NextLock(a), NextLock(b - 1), NextLock(b));
    }
  }

  lemma LocksOnlyLock(actions: seq<RoundAction>, known: set<int>, finished: bool, ask: int -> Question)
    ensures forall i | 0 <= i < |Locks(actions, known, finished, ask)| :: Locks(actions, known, finished, ask)[i].Lock?
  {
  }

  /** No lock of a first-half window is left once the second half has been seen. */
  lemma SecondHalfEndsFirstHalfLocks(planner: PlannerState, tick: ClockTick)
    requires Sane(planner) && PeriodRank(tick.period) >= 3
    ensures Sane(Advance(planner, tick)) && NextLock(Done(Advance(planner, tick))) >= HALFTIME_WINDOW_START
  {
    AdvanceFollowsSchedule(planner, tick);
    var end := Advance(planner, tick);
    assert !Due(end, tick);
    if end.openWindow.Some? {
      assert Done(end) / 2 == end.nextIndex - 1;
    } else {
      assert Done(end) / 2 == end.nextIndex;
    }
  }

  // ----- what holds of every feed

  predicate IsLateClock(input: Input) { input.Clock? && PeriodRank(input.tick.period) >= 3 }

  predicate IsLateEvent(input: Input) { input.Happened? && input.event.phase == SecondHalf }

  ghost predicate SecondHalfSeen(inputs: seq<Input>) { exists k :: 0 <= k < |inputs| && IsLateClock(inputs[k]) }

  /** After the second half was seen only second-half windows lock, now and later. */
  ghost predicate HalvesKept(inputs: seq<Input>, nextLock: int) {
    && (SecondHalfSeen(inputs) ==> nextLock >= HALFTIME_WINDOW_START)
    && (forall k, i | 0 <= k < i < |inputs| && IsLateClock(inputs[k]) && inputs[i].Lock? ::
          inputs[i].round.windowStart >= HALFTIME_WINDOW_START)
  }

  ghost predicate LateEventsAreLate(inputs: seq<Input>) {
    forall j | 0 <= j < |inputs| && IsLateEvent(inputs[j]) :: exists k :: 0 <= k < j && IsLateClock(inputs[k])
  }

  ghost predicate FeedInv(lastPeriod: Option<Period>, nextLock: int, inputs: seq<Input>) {
    && NextLock(0) <= nextLock && LocksRise(inputs, NextLock(0), nextLock)
    && HalvesKept(inputs, nextLock)
    && LateEventsAreLate(inputs)
    && (lastPeriod.Some? && PeriodRank(lastPeriod.value) >= 3 ==> SecondHalfSeen(inputs))
  }

  lemma LocksKeep(lastPeriod: Option<Period>, nextLock: int, inputs: seq<Input>, locks: seq<Input>, next: int)
    requires FeedInv(lastPeriod, nextLock, inputs) && NextLock(0) <= nextLock <= next
    requires LocksRise(locks, nextLock, next) && forall i | 0 <= i < |locks| :: locks[i].Lock?
    ensures FeedInv(lastPeriod, next, inputs + locks)
  {
    RiseOn(inputs, locks, NextLock(0), nextLock, next);
    SeenStays(inputs, locks);
    var all := inputs + locks;
    forall k, i | 0 <= k < i < |all| && IsLateClock(all[k]) && all[i].Lock?
      ensures all[i].round.windowStart >= HALFTIME_WINDOW_START
    {
      assert k < |inputs| && all[k] == inputs[k];
      if i >= |inputs| { assert all[i] == locks[i - |inputs|]; }
    }
    LateStays(inputs, locks);
  }

  lemma SeenStays(inputs: seq<Input>, more: seq<Input>)
    requires forall i | 0 <= i < |more| :: !IsLateClock(more[i])
    ensures SecondHalfSeen(inputs + more) == SecondHalfSeen(inputs)
  {
    if SecondHalfSeen(inputs) {
      var k :| 0 <= k < |inputs| && IsLateClock(inputs[k]);
      assert (inputs + more)[k] == inputs[k];
    }
  }

  lemma LateStays(inputs: seq<Input>, more: seq<Input>)
    requires LateEventsAreLate(inputs) && forall i | 0 <= i < |more| :: !IsLateEvent(more[i])
    ensures LateEventsAreLate(inputs + more)
  {
    var all := inputs + more;
    forall j | 0 <= j < |all| && IsLateEvent(all[j]) ensures exists k :: 0 <= k < j && IsLateClock(all[k]) {
      assert j < |inputs| && all[j] == inputs[j];
      var k :| 0 <= k < j && IsLateClock(inputs[k]);
      assert all[k] == inputs[k];
    }
  }

  lemma ClockKeeps(lastPeriod: Option<Period>, nextLock: int, inputs: seq<Input>, tick: ClockTick)
    requires FeedInv(lastPeriod, nextLock, inputs)
    requires PeriodRank(tick.period) >= 3 ==> nextLock >= HALFTIME_WINDOW_START
    ensures FeedInv(Some(tick.period), nextLock, inputs + [Clock(tick)])
  {
    var all := inputs + [Clock(tick)];
    RiseOn(inputs, [Clock(tick)], NextLock(0), nextLock, nextLock);
    LateStays(inputs, [Clock(tick)]);
    if PeriodRank(tick.period) >= 3 {
      assert IsLateClock(all[|inputs|]);
    } else {
      SeenStays(inputs, [Clock(tick)]);
    }
  }

  lemma EventKeeps(lastPeriod: Option<Period>, nextLock: int, inputs: seq<Input>, event: LiveEvent)
    requires FeedInv(lastPeriod, nextLock, inputs) && lastPeriod == Some(event.phase)
    ensures FeedInv(lastPeriod, nextLock, inputs + [Happened(event)])
  {
    var all := inputs + [Happened(event)];
    RiseOn(inputs, [Happened(event)], NextLock(0), nextLock, nextLock);
    SeenStays(inputs, [Happened(event)]);
    if event.phase == SecondHalf {
      var k :| 0 <= k < |inputs| && IsLateClock(inputs[k]);
      assert all[k] == inputs[k];
      forall j | 0 <= j < |inputs| && IsLateEvent(all[j]) ensures exists k :: 0 <= k < j && IsLateClock(all[k]) {
        assert all[j] == inputs[j];
        var k :| 0 <= k < j && IsLateClock(inputs[k]);
        assert all[k] == inputs[k];
      }
    } else {
      LateStays(inputs, [Happened(event)]);
    }
  }

  lemma ClockPartKeeps(f: Feed, m: Message, ask: int -> Question, inputs: seq<Input>, tick: ClockTick)
    requires Sane(f.planner) && FeedInv(f.producer.lastPeriod, NextLock(Done(f.planner)), inputs)
    ensures Sane(Advance(f.planner, tick))
    ensures FeedInv(Some(tick.period), NextLock(Done(Advance(f.planner, tick))),
                    inputs + Locks(Actions(f.planner, tick), f.known, m.finished, ask) + [Clock(tick)])
  {
    AdvanceFollowsSchedule(f.planner, tick);
    var a, b := Done(f.planner), Done(Advance(f.planner, tick));
    ScheduledLocksRise(a, b, f.known, m.finished, ask);
    LocksOnlyLock(Schedule(a, b), f.known, m.finished, ask);
    NextLockRises(0, a);
    NextLockRises(a, b);
    LocksKeep(f.producer.lastPeriod, NextLock(a), inputs, Locks(Schedule(a, b), f.known, m.finished, ask), NextLock(b));
    if PeriodRank(tick.period) >= 3 { SecondHalfEndsFirstHalfLocks(f.planner, tick); }
    ClockKeeps(f.producer.lastPeriod, NextLock(b), inputs + Locks(Schedule(a, b), f.known, m.finished, ask), tick);
  }

  lemma MessageKeeps(f: Feed, m: Message, ask: int -> Question, inputs: seq<Input>)
    requires Sane(f.planner) && FeedInv(f.producer.lastPeriod, NextLock(Done(f.planner)), inputs)
    ensures var next := HearClock(f, m);
            FeedInv(next.producer.lastPeriod, NextLock(Done(next.planner)), inputs + Reaches(f, m, ask))
  {
    var tick, event := TickOf(ClockPart(f.producer, m.raw)), EventOf(f.producer, m.raw);
    var next := HearClock(f, m);
    var first := if tick.Some? then Locks(Actions(f.planner, tick.value), f.known, m.finished, ask) + [Clock(tick.value)] else [];
    if tick.Some? {
      ClockPartKeeps(f, m, ask, inputs, tick.value);
      assert inputs + first == inputs + Locks(Actions(f.planner, tick.value), f.known, m.finished, ask) + [Clock(tick.value)];
    } else {
      assert inputs + first == inputs;
    }
    assert FeedInv(next.producer.lastPeriod, NextLock(Done(next.planner)), inputs + first);
    if event.Some? {
      EventKeeps(next.producer.lastPeriod, NextLock(Done(next.planner)), inputs + first, event.value);
      assert inputs + Reaches(f, m, ask) == inputs + first + [Happened(event.value)];
    } else {
      assert Reaches(f, m, ask) == first;
    }
  }

  lemma {:induction false} EveryFeedKeeps(feed: seq<Message>, ask: int -> Question)
    ensures var f := AfterFeed(feed);
            FeedInv(f.producer.lastPeriod, NextLock(Done(f.planner)), Inputs(feed, ask))
  {
    if feed != [] {
      EveryFeedKeeps(feed[..|feed| - 1], ask);
      MessageKeeps(AfterFeed(feed[..|feed| - 1]), feed[|feed| - 1], ask, Inputs(feed[..|feed| - 1], ask));
    }
  }

  /** No window is locked twice, whatever the feed says. */
  lemma {:induction false} NoWindowLocksTwice(feed: seq<Message>, ask: int -> Question)
    ensures var inputs := Inputs(feed, ask);
            forall i, j | 0 <= i < j < |inputs| && inputs[i].Lock? && inputs[j].Lock? ::
              inputs[i].round.windowStart < inputs[j].round.windowStart
  {
    EveryFeedKeeps(feed, ask);
  }

  // ----- the two halves never mix in a first-half window

  ghost predicate AllFromTheFirstHalf(events: seq<LiveEvent>) {
    forall i | 0 <= i < |events| :: events[i].phase != SecondHalf
  }

  lemma {:induction false} EventsComeFromInputs(inputs: seq<Input>)
    requires forall i | 0 <= i < |inputs| :: !IsLateEvent(inputs[i])
    ensures AllFromTheFirstHalf(EventsOf(inputs))
  {
    if inputs != [] { EventsComeFromInputs(inputs[..|inputs| - 1]); }
  }

  lemma {:induction false} UntouchedUntilLocked(inputs: seq<Input>, w: int)
    requires forall i | 0 <= i < |inputs| :: !IsLockOf(inputs[i], w)
    ensures w !in After(EMPTY, inputs).entries && OfWindow(Announced(EMPTY, inputs), w) == []
  {
    if inputs != [] {
      var shorter := inputs[..|inputs| - 1];
      UntouchedUntilLocked(shorter, w);
      StepOffWindow(After(EMPTY, shorter), inputs[|inputs| - 1], w);
      OfWindowOfBoth(Announced(EMPTY, shorter), Emitted(After(EMPTY, shorter), inputs[|inputs| - 1]), w);
    }
  }

  /** On every raw feed, each locked window is settled at most once, as its whole history after the lock says. */
  lemma EveryWindowSettlesFromItsHistory(feed: seq<Message>, ask: int -> Question, n: nat)
    requires n < |Inputs(feed, ask)| && Inputs(feed, ask)[n].Lock?
    ensures var inputs := Inputs(feed, ask);
            var r := inputs[n].round;
            Agrees(r, inputs[n + 1..], After(EMPTY, inputs).entries, OfWindow(Announced(EMPTY, inputs), r.windowStart))
  {
    EveryFeedKeeps(feed, ask);
    LockedOnce(Inputs(feed, ask), n);
  }

  lemma LockedOnce(inputs: seq<Input>, n: nat)
    requires n < |inputs| && inputs[n].Lock?
    requires forall i | 0 <= i < |inputs| && i != n :: !IsLockOf(inputs[i], inputs[n].round.windowStart)
    ensures var r := inputs[n].round;
            Agrees(r, inputs[n + 1..], After(EMPTY, inputs).entries, OfWindow(Announced(EMPTY, inputs), r.windowStart))
  {
    var r, before, rest := inputs[n].round, inputs[..n], inputs[n + 1..];
    UntouchedUntilLocked(before, r.windowStart);
    LockThenRest(After(EMPTY, before), r, rest);
    LockComesBetween(inputs, n);
    FromTheLockOn(inputs, before, [Lock(r)] + rest, r.windowStart);
  }

  lemma LockComesBetween(inputs: seq<Input>, n: nat)
    requires n < |inputs|
    ensures inputs == inputs[..n] + ([inputs[n]] + inputs[n + 1..])
  {
  }

  lemma FromTheLockOn(inputs: seq<Input>, before: seq<Input>, after: seq<Input>, w: int)
    requires inputs == before + after && OfWindow(Announced(EMPTY, before), w) == []
    ensures After(EMPTY, inputs) == After(After(EMPTY, before), after)
    ensures OfWindow(Announced(EMPTY, inputs), w) == OfWindow(Announced(After(EMPTY, before), after), w)
  {
    InTwo(EMPTY, before, after);
    OfWindowOfBoth(Announced(EMPTY, before), Announced(After(EMPTY, before), after), w);
  }

  lemma LockThenRest(b: Book, r: Round, rest: seq<Input>)
    requires Sound(b) && r.windowStart !in b.entries
    requires forall i | 0 <= i < |rest| :: !IsLockOf(rest[i], r.windowStart)
    ensures var inputs := [Lock(r)] + rest;
            Agrees(r, rest, After(b, inputs).entries, OfWindow(Announced(b, inputs), r.windowStart))
  {
    StepIsSound(b, Lock(r));
    InTwo(b, [Lock(r)], rest);
    assert [Lock(r)][..0] == [];
    assert After(b, [Lock(r)]) == Step(b, Lock(r)) && Announced(b, [Lock(r)]) == [];
    IncrementalEqualsBatch(Step(b, Lock(r)), r, rest);
    assert Announced(b, [Lock(r)] + rest) == Announced(Step(b, Lock(r)), rest);
  }

  /** Up to and including the input that closes it, a first-half window has only seen events of the first half. */
  lemma FirstHalfWindowsCountNoSecondHalf(feed: seq<Message>, ask: int -> Question, n: nat, k: nat)
    requires n < |Inputs(feed, ask)| && Inputs(feed, ask)[n].Lock?
    requires Inputs(feed, ask)[n].round.windowStart < HALFTIME_WINDOW_START
    requires var r := Inputs(feed, ask)[n].round;
             NoneBefore(r, Inputs(feed, ask)[n + 1..], k) && k < |Inputs(feed, ask)| - n - 1
    ensures AllFromTheFirstHalf(EventsOf(Inputs(feed, ask)[n + 1..][..k + 1]))
  {
    EveryFeedKeeps(feed, ask);
    var nextLock := NextLock(Done(AfterFeed(feed).planner));
    var rest := Inputs(feed, ask)[n + 1..];
    forall j | 0 <= j <= k ensures !IsLateEvent(rest[j]) {
      NoLateEventBeforeClosing(Inputs(feed, ask), nextLock, n, k, j);
    }
    EventsComeFromInputs(rest[..k + 1]);
  }

  lemma NoLateEventBeforeClosing(inputs: seq<Input>, nextLock: int, n: nat, k: nat, j: nat)
    requires LateEventsAreLate(inputs) && HalvesKept(inputs, nextLock)
    requires j <= k < |inputs| - n - 1 && inputs[n].Lock? && inputs[n].round.windowStart < HALFTIME_WINDOW_START
    requires NoneBefore(inputs[n].round, inputs[n + 1..], k)
    ensures !IsLateEvent(inputs[n + 1..][j])
  {
    var rest := inputs[n + 1..];
    if IsLateEvent(rest[j]) {
      assert inputs[n + 1 + j] == rest[j];
      var c :| 0 <= c < n + 1 + j && IsLateClock(inputs[c]);
      assert rest[c - n - 1] == inputs[c];
      assert IsClosing(inputs[n].round, rest, c - n - 1);
      assert false;
    }
  }
}

/** The soccer window planner (round-engine/planner.ts): one clock tick may catch up over several windows. */
module Planner {
  import opened Cs2Types

  datatype Period = Pre | FirstHalf | Halftime | SecondHalf | FullTime

  datatype ClockTick = ClockTick(period: Period, minute: int)

  datatype PlannerState = PlannerState(nextIndex: nat, openWindow: Option<int>)

  datatype RoundAction = OpenWindow(windowStart: int) | LockWindow(windowStart: int)

  const HALFTIME_WINDOW_START := 45
  const WINDOW_COUNT := 16
  const INITIAL := PlannerState(0, None)

  /** The regular five-minute window starts without the kickoff and the halftime window: 5..40 and 50..85. */
  function WindowStart(i: nat): int {
    if i < 8 then 5 * (i + 1) else 5 * (i + 2)
  }

  function FilteredStarts(windows: nat): seq<int> {
    if windows == 0 then []
    else
      var start := 5 * (windows - 1);
      FilteredStarts(windows - 1) + if start != HALFTIME_WINDOW_START && start != 0 then [start] else []
  }

  /** The closed form lists exactly the 18 match windows that pass the source's filter. */
  lemma {:induction false} TargetWindows(windows: nat)
    requires windows <= 18
    ensures var kept := if windows == 0 then 0 else if windows < 10 then windows - 1 else windows - 2;
            FilteredStarts(windows) == seq(kept, i requires 0 <= i < kept => WindowStart(i))
  {
    if windows > 0 { TargetWindows(windows - 1); }
  }

  function PeriodRank(p: Period): nat {
    match p case Pre => 0 case FirstHalf => 1 case Halftime => 2 case SecondHalf => 3 case FullTime => 4
  }

  function RequiredPeriod(windowStart: int): Period {
    if windowStart < HALFTIME_WINDOW_START then FirstHalf else SecondHalf
  }

  predicate HasReachedMinute(tick: ClockTick, minute: int, period: Period) {
    PeriodRank(tick.period) > PeriodRank(period) || (tick.period == period && tick.minute >= minute)
  }

  // ----- one action at a time

  predicate LockDue(s: PlannerState, tick: ClockTick) {
    s.openWindow.Some? && HasReachedMinute(tick, s.openWindow.value, RequiredPeriod(s.openWindow.value))
  }

  predicate OpenDue(s: PlannerState, tick: ClockTick) {
    && s.openWindow.None? && s.nextIndex < WINDOW_COUNT
    && (s.nextIndex == 0 || PeriodRank(tick.period) >= PeriodRank(RequiredPeriod(WindowStart(s.nextIndex))))
  }

  predicate Due(s: PlannerState, tick: ClockTick) { LockDue(s, tick) || OpenDue(s, tick) }

  /** The action that is next in state `s`, whenever it comes due. */
  function NextAction(s: PlannerState): RoundAction {
    if s.openWindow.Some? then LockWindow(s.openWindow.value) else OpenWindow(WindowStart(s.nextIndex))
  }

  function AfterAction(s: PlannerState): PlannerState {
    if s.openWindow.Some? then s.(openWindow := None)
    else PlannerState(s.nextIndex + 1, Some(WindowStart(s.nextIndex)))
  }

  /** Twice the windows left, and one for the window that is open. */
  function Measure(s: PlannerState): nat
    requires s.nextIndex <= WINDOW_COUNT
  {
    2 * (WINDOW_COUNT - s.nextIndex) + if s.openWindow.Some? then 1 else 0
  }

  /** All actions due at `tick`, one after the other. */
  function Actions(s: PlannerState, tick: ClockTick): seq<RoundAction>
    requires s.nextIndex <= WINDOW_COUNT
    decreases Measure(s)
  {
    if Due(s, tick) then [NextAction(s)] + Actions(AfterAction(s), tick) else []
  }

  function Advance(s: PlannerState, tick: ClockTick): (next: PlannerState)
    requires s.nextIndex <= WINDOW_COUNT
    ensures next.nextIndex <= WINDOW_COUNT && !Due(next, tick)
    decreases Measure(s)
  {
    if Due(s, tick) then Advance(AfterAction(s), tick) else s
  }

  lemma {:induction false} DueActionComesFirst(s: PlannerState, tick: ClockTick)
    requires s.nextIndex <= WINDOW_COUNT && Due(s, tick)
    ensures AfterAction(s).nextIndex <= WINDOW_COUNT && Measure(s) == Measure(AfterAction(s)) + 1
    ensures Advance(s, tick) == Advance(AfterAction(s), tick)
    ensures Actions(s, tick) == [NextAction(s)] + Actions(AfterAction(s), tick)
  {
  }

  lemma {:induction false} OneActionOn(s: PlannerState, tick: ClockTick, actions: seq<RoundAction>)
    requires s.nextIndex <= WINDOW_COUNT && Due(s, tick)
    ensures AfterAction(s).nextIndex <= WINDOW_COUNT && Measure(s) == Measure(AfterAction(s)) + 1
    ensures Advance(s, tick) == Advance(AfterAction(s), tick)
    ensures actions + Actions(s, tick) == actions + [NextAction(s)] + Actions(AfterAction(s), tick)
  {
    DueActionComesFirst(s, tick);
    PutAtTheEnd(actions, NextAction(s), Actions(AfterAction(s), tick));
  }

  lemma PutAtTheEnd(actions: seq<RoundAction>, action: RoundAction, rest: seq<RoundAction>)
    ensures actions + ([action] + rest) == actions + [action] + rest
  {
  }

  /** The catch-up loop: it ends, because every action takes one off the measure, and does just what is due. */
  method PlanRoundActions(state: PlannerState, tick: ClockTick) returns (next: PlannerState, actions: seq<RoundAction>)
    requires state.nextIndex <= WINDOW_COUNT
    ensures next == Advance(state, tick) && actions == Actions(state, tick)
    ensures !Due(next, tick)
    ensures |actions| == Measure(state) - Measure(next)
  {
    var nextIndex: nat, openWindow := state.nextIndex, state.openWindow;
    actions := [];
    while true
      invariant nextIndex <= WINDOW_COUNT
      invariant Advance(PlannerState(nextIndex, openWindow), tick) == Advance(state, tick)
      invariant actions + Actions(PlannerState(nextIndex, openWindow), tick) == Actions(state, tick)
      invariant |actions| == Measure(state) - Measure(PlannerState(nextIndex, openWindow))
      decreases Measure(PlannerState(nextIndex, openWindow))
    {
      var progressed := false;
      if openWindow.Some? {
        var req := RequiredPeriod(openWindow.value);
        if HasReachedMinute(tick, openWindow.value, req) {
          OneActionOn(PlannerState(nextIndex, openWindow), tick, actions);
          actions := actions + [LockWindow(openWindow.value)];
          openWindow := None;
          progressed := true;
        }
      }
      if openWindow.None? && nextIndex < WINDOW_COUNT {
        var candidate := WindowStart(nextIndex);
        var req := RequiredPeriod(candidate);
        if nextIndex == 0 || PeriodRank(tick.period) >= PeriodRank(req) {
          OneActionOn(PlannerState(nextIndex, openWindow), tick, actions);
          actions := actions + [OpenWindow(candidate)];
          openWindow := Some(candidate);
          nextIndex := nextIndex + 1;
          progressed := true;
        }
      }
      if !progressed { break; }
    }
    next := PlannerState(nextIndex, openWindow);
    assert !Due(next, tick) && Actions(next, tick) == [];
  }

  // ----- catch-up equals step by step

  /** The match clock does not run backwards from `a` to `b`. */
  predicate NotLater(a: ClockTick, b: ClockTick) {
    PeriodRank(a.period) < PeriodRank(b.period) || (a.period == b.period && a.minute <= b.minute)
  }

  /** What an earlier tick would have done, the later one does first; the rest is the same either way. */
  lemma {:induction false} EarlierTickIsAbsorbed(s: PlannerState, a: ClockTick, b: ClockTick)
    requires s.nextIndex <= WINDOW_COUNT && NotLater(a, b)
    ensures Advance(s, b) == Advance(Advance(s, a), b)
    ensures Actions(s, b) == Actions(s, a) + Actions(Advance(s, a), b)
    decreases Measure(s)
  {
    if Due(s, a) {
      assert Due(s, b);
      EarlierTickIsAbsorbed(AfterAction(s), a, b);
    }
  }

  function RunTicks(s: PlannerState, ticks: seq<ClockTick>): (end: PlannerState)
    requires s.nextIndex <= WINDOW_COUNT
    ensures end.nextIndex <= WINDOW_COUNT
  {
    if ticks == [] then s else Advance(RunTicks(s, ticks[..|ticks| - 1]), ticks[|ticks| - 1])
  }

  function RunActions(s: PlannerState, ticks: seq<ClockTick>): seq<RoundAction>
    requires s.nextIndex <= WINDOW_COUNT
  {
    if ticks == [] then []
    else RunActions(s, ticks[..|ticks| - 1]) + Actions(RunTicks(s, ticks[..|ticks| - 1]), ticks[|ticks| - 1])
  }

  /** For ticks that never run backwards, only the last one matters. */
  lemma {:induction false} OnlyTheLastTickMatters(s: PlannerState, ticks: seq<ClockTick>)
    requires s.nextIndex <= WINDOW_COUNT && ticks != []
    requires forall i, j | 0 <= i < j < |ticks| :: NotLater(ticks[i], ticks[j])
    ensures RunTicks(s, ticks) == Advance(s, ticks[|ticks| - 1])
    ensures RunActions(s, ticks) == Actions(s, ticks[|ticks| - 1])
  {
    var shorter, last := ticks[..|ticks| - 1], ticks[|ticks| - 1];
    if shorter == [] {
      assert RunTicks(s, shorter) == s && RunActions(s, shorter) == [];
      assert [] + Actions(s, last) == Actions(s, last);
    } else {
      OnlyTheLastTickMatters(s, shorter);
      assert shorter[|shorter| - 1] == ticks[|ticks| - 2];
      EarlierTickIsAbsorbed(s, ticks[|ticks| - 2], last);
    }
  }

  // ----- the windows come in order, whatever the clock does

  /** The i-th action of a full match: open and lock the windows in turn. */
  function Scheduled(i: nat): RoundAction {
    if i % 2 == 0 then OpenWindow(WindowStart(i / 2)) else LockWindow(WindowStart(i / 2))
  }

  function Schedule(from: nat, to: nat): (all: seq<RoundAction>)
    requires from <= to
    ensures |all| == to - from
    decreases if from <= to then to - from else 0
  {
    if from == to then [] else [Scheduled(from)] + Schedule(from + 1, to)
  }

  /** States the planner can be in: an open window is the last one taken. */
  predicate Sane(s: PlannerState) {
    && s.nextIndex <= WINDOW_COUNT
    && (s.openWindow.Some? ==> s.nextIndex > 0 && s.openWindow.value == WindowStart(s.nextIndex - 1))
  }

  function Done(s: PlannerState): nat
    requires Sane(s)
  {
    2 * WINDOW_COUNT - Measure(s)
  }

  lemma NextActionIsScheduled(s: PlannerState)
    requires Sane(s) && (s.openWindow.Some? || s.nextIndex < WINDOW_COUNT)
    ensures NextAction(s) == Scheduled(Done(s))
    ensures Sane(AfterAction(s)) && Done(AfterAction(s)) == Done(s) + 1
  {
    if s.openWindow.Some? { assert Done(s) == 2 * (s.nextIndex - 1) + 1; } else { assert Done(s) == 2 * s.nextIndex; }
  }

  lemma {:induction false} ScheduleInTwo(from: nat, mid: nat, to: nat)
    requires from <= mid <= to
    ensures Schedule(from, to) == Schedule(from, mid) + Schedule(mid, to)
    decreases mid - from
  {
    if from < mid {
      ScheduleInTwo(from + 1, mid, to);
      assert [Scheduled(from)] + (Schedule(from + 1, mid) + Schedule(mid, to))
          == [Scheduled(from)] + Schedule(from + 1, mid) + Schedule(mid, to);
    }
  }

  lemma {:induction false} AdvanceStaysSane(s: PlannerState, tick: ClockTick)
    requires Sane(s)
    ensures Sane(Advance(s, tick)) && Done(s) <= Done(Advance(s, tick))
    ensures Due(s, tick) ==> Done(s) < Done(Advance(s, tick))
    decreases Measure(s)
  {
    if Due(s, tick) {
      NextActionIsScheduled(s);
      AdvanceStaysSane(AfterAction(s), tick);
    }
  }

  lemma {:induction false} AdvanceFollowsSchedule(s: PlannerState, tick: ClockTick)
    requires Sane(s)
    ensures Sane(Advance(s, tick)) && Done(s) <= Done(Advance(s, tick))
    ensures Actions(s, tick) == Schedule(Done(s), Done(Advance(s, tick)))
    decreases Measure(s)
  {
    AdvanceStaysSane(s, tick);
    if Due(s, tick) {
      NextActionIsScheduled(s);
      AdvanceFollowsSchedule(AfterAction(s), tick);
      DueActionComesFirst(s, tick);
    }
  }

  /** For any ticks at all, the actions are a beginning of the schedule: in order, alternating, none repeated. */
  lemma {:induction false} ActionsFollowTheSchedule(ticks: seq<ClockTick>)
    ensures Sane(RunTicks(INITIAL, ticks))
    ensures RunActions(INITIAL, ticks) == Schedule(0, Done(RunTicks(INITIAL, ticks)))
  {
    if ticks != [] {
      ActionsFollowTheSchedule(ticks[..|ticks| - 1]);
      AdvanceFollowsSchedule(RunTicks(INITIAL, ticks[..|ticks| - 1]), ticks[|ticks| - 1]);
      ScheduleInTwo(0, Done(RunTicks(INITIAL, ticks[..|ticks| - 1])), Done(RunTicks(INITIAL, ticks)));
    }
  }

  /** No action comes twice: the schedule names each window once to open and once to lock. */
  lemma ScheduleRepeatsNothing(i: nat, j: nat)
    requires i < j
    ensures Scheduled(i) != Scheduled(j)
  {
    assert i / 2 <= j / 2;
  }
}

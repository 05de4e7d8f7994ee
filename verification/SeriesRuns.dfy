/** The series reducer over every sequence of polls. */
module SeriesRuns {
  import opened Cs2Types
  import opened SeriesLifecycle

  datatype SeriesPoll = SeriesPoll(snapshot: Option<SeriesSnapshot>, now: int)

  function RunSeries(s: LifecycleState, polls: seq<SeriesPoll>): (LifecycleState, seq<Action>) {
    if polls == [] then (s, [])
    else
      var (before, actions) := RunSeries(s, polls[..|polls| - 1]);
      var last := polls[|polls| - 1];
      var (after, more) := Process(before, last.snapshot, last.now);
      (after, actions + more)
  }

  /** The state a series is followed from; its stored format, if any, is filled in. */
  function Begin(start: int, startAfterMap1: bool, format: Option<nat>): LifecycleState {
    InitialState(start, startAfterMap1).(format := format)
  }

  function StateAfter(s: LifecycleState, polls: seq<SeriesPoll>): LifecycleState { RunSeries(s, polls).0 }

  // ----- the live flags

  /** Until the series is decided, the detected map is live exactly when the feed last showed a live game. */
  predicate FlagsAgree(s: LifecycleState) {
    s.decided || (s.matchLiveDetected == s.lastHasLiveGame && (s.openedThrough == 0 ==> !s.matchLiveDetected))
  }

  lemma ProcessKeepsFlags(s: LifecycleState, snapshot: Option<SeriesSnapshot>, now: int)
    requires FlagsAgree(s)
    ensures FlagsAgree(Process(s, snapshot, now).0)
  {
  }

  lemma {:induction false} LiveFlagsAlwaysAgree(start: int, startAfterMap1: bool, format: Option<nat>, polls: seq<SeriesPoll>)
    ensures FlagsAgree(StateAfter(Begin(start, startAfterMap1, format), polls))
  {
    if polls != [] {
      LiveFlagsAlwaysAgree(start, startAfterMap1, format, polls[..|polls| - 1]);
      var last := polls[|polls| - 1];
      ProcessKeepsFlags(StateAfter(Begin(start, startAfterMap1, format), polls[..|polls| - 1]), last.snapshot, last.now);
    }
  }

  // ----- the shape of every action trace

  /** A map that did not end the series: played out, or forfeited without ever being seen live. */
  predicate ClosedLife(k: nat, life: seq<Action>) {
    || life == [OpenArena(k), MatchLiveDetected(k), MatchEnded(k)]
    || life == [OpenArena(k), CancelArena(k, Forfeit)]
  }

  /** The actions of the map the state is at, with the end of the series if it has ended. */
  predicate CurrentLife(s: LifecycleState, life: seq<Action>) {
    var k := s.openedThrough;
    if s.invalid then life == [OpenArena(k), CancelArena(k, NoShow)]
    else if s.decided then
      && life != [] && life[|life| - 1].SeriesDecided?
      && (life[..|life| - 1] == [OpenArena(k), MatchLiveDetected(k), MatchEnded(k)]
          || life[..|life| - 1] == [OpenArena(k), CancelArena(k, SeriesOver)])
    else if k == 0 then life == []
    else if s.matchLiveDetected then life == [OpenArena(k), MatchLiveDetected(k)]
    else life == [OpenArena(k)]
  }

  function Flatten(lives: seq<seq<Action>>): seq<Action> {
    if lives == [] then [] else Flatten(lives[..|lives| - 1]) + lives[|lives| - 1]
  }

  lemma FlattenAppend(lives: seq<seq<Action>>, life: seq<Action>)
    ensures Flatten(lives + [life]) == Flatten(lives) + life
  {
    assert (lives + [life])[..|lives|] == lives;
  }

  /** `trace` is the closed lives of maps 1, 2, ... in order, followed by the current map's. */
  ghost predicate Shape(s: LifecycleState, trace: seq<Action>, closed: seq<seq<Action>>, current: seq<Action>) {
    && trace == Flatten(closed) + current
    && |closed| == (if s.openedThrough == 0 then 0 else s.openedThrough - 1)
    && (forall i | 0 <= i < |closed| :: ClosedLife(i + 1, closed[i]))
    && CurrentLife(s, current)
    && !(s.decided && s.invalid)
    && (s.openedThrough == 0 ==> !Ended(s))
  }

  /** How one poll extends the current life: it stays, grows, or is closed and followed by the next one. */
  lemma OpenedExtends(s: LifecycleState, snapshot: Option<SeriesSnapshot>, now: int, life: seq<Action>)
    requires !Ended(s) && s.openedThrough > 0 && FlagsAgree(s) && CurrentLife(s, life)
    ensures var (next, actions) := OnOpened(s, snapshot, now);
            if next.openedThrough == s.openedThrough then CurrentLife(next, life + actions) && !(next.decided && next.invalid)
            else
              && next.openedThrough == s.openedThrough + 1 && !Ended(next) && |actions| == 2
              && ClosedLife(s.openedThrough, life + actions[..1]) && CurrentLife(next, actions[1..])
  {
    var (next, actions) := OnOpened(s, snapshot, now);
    if actions == [] { assert life + actions == life; }
    if next.decided && !s.decided {
      assert (life + actions)[..|life + actions| - 1] == life + actions[..|actions| - 1];
    }
  }

  lemma PollExtends(
    s: LifecycleState, poll: SeriesPoll, trace: seq<Action>, closed: seq<seq<Action>>, current: seq<Action>)
    returns (closed': seq<seq<Action>>, current': seq<Action>)
    requires FlagsAgree(s) && Shape(s, trace, closed, current)
    ensures var (next, actions) := Process(s, poll.snapshot, poll.now);
            Shape(next, trace + actions, closed', current')
  {
    var (next, actions) := Process(s, poll.snapshot, poll.now);
    closed', current' := closed, current;
    if Ended(s) || (actions == [] && next.openedThrough == 0) {
      assert trace + actions == trace;
      return;
    }
    var known := WithFormat(s, poll.snapshot);
    var lobby := if s.openedThrough == 0 then known.(openedThrough := 1, openedThroughAt := poll.now) else known;
    var life := if s.openedThrough == 0 then [OpenArena(1)] else current;
    var rest := OnOpened(lobby, poll.snapshot, poll.now).1;
    OpenedExtends(lobby, poll.snapshot, poll.now, life);
    closed', current' := GrowsOrCloses(lobby, next, closed, life, rest);
    Regrouped(trace, actions, closed, life, rest, s.openedThrough == 0);
  }

  lemma Regrouped(
    trace: seq<Action>, actions: seq<Action>, closed: seq<seq<Action>>, life: seq<Action>, rest: seq<Action>, opens: bool)
    requires if opens then trace == [] && closed == [] && actions == life + rest
             else trace == Flatten(closed) + life && actions == rest
    ensures trace + actions == Flatten(closed) + (life + rest)
  {
  }

  /** The current life grows, or is closed and the next one begins. */
  lemma GrowsOrCloses(
    s: LifecycleState, next: LifecycleState, closed: seq<seq<Action>>, life: seq<Action>, rest: seq<Action>)
    returns (closed': seq<seq<Action>>, current': seq<Action>)
    requires s.openedThrough > 0 && |closed| == s.openedThrough - 1
    requires forall i | 0 <= i < |closed| :: ClosedLife(i + 1, closed[i])
    requires if next.openedThrough == s.openedThrough
             then CurrentLife(next, life + rest) && !(next.decided && next.invalid)
             else && next.openedThrough == s.openedThrough + 1 && !Ended(next) && |rest| == 2
                  && ClosedLife(s.openedThrough, life + rest[..1]) && CurrentLife(next, rest[1..])
    ensures Shape(next, Flatten(closed) + (life + rest), closed', current')
  {
    if next.openedThrough == s.openedThrough {
      closed', current' := closed, life + rest;
    } else {
      closed', current' := closed + [life + rest[..1]], rest[1..];
      ClosedAndGoneOn(closed, life, rest);
    }
  }

  lemma ClosedAndGoneOn(closed: seq<seq<Action>>, life: seq<Action>, rest: seq<Action>)
    requires |rest| == 2
    ensures Flatten(closed + [life + rest[..1]]) + rest[1..] == Flatten(closed) + (life + rest)
  {
    FlattenAppend(closed, life + rest[..1]);
    assert rest == rest[..1] + rest[1..];
  }

  /** With `startAfterMap1`, map 1 was opened and live before we came; its first two actions are not ours. */
  function Before(startAfterMap1: bool): seq<Action> {
    if startAfterMap1 then [OpenArena(1), MatchLiveDetected(1)] else []
  }

  /**
   * Every trace is a sequence of whole map lives, numbered consecutively: each arena is opened once,
   * the next only after exactly one end or cancellation of it, a map that was live is never cancelled,
   * an end follows a live map only, and nothing follows a decided or invalid series.
   */
  lemma {:induction false} EveryTraceIsASequenceOfMaps(start: int, startAfterMap1: bool, format: Option<nat>, polls: seq<SeriesPoll>)
    returns (closed: seq<seq<Action>>, current: seq<Action>)
    ensures var (s, actions) := RunSeries(Begin(start, startAfterMap1, format), polls);
            Shape(s, Before(startAfterMap1) + actions, closed, current)
  {
    assert Flatten([]) + Before(startAfterMap1) == Before(startAfterMap1);
    closed, current := TraceFrom(Begin(start, startAfterMap1, format), Before(startAfterMap1), polls);
  }

  lemma {:induction false} TraceFrom(s: LifecycleState, before: seq<Action>, polls: seq<SeriesPoll>)
    returns (closed: seq<seq<Action>>, current: seq<Action>)
    requires FlagsAgree(s) && Shape(s, before, [], before)
    ensures FlagsAgree(StateAfter(s, polls))
    ensures Shape(StateAfter(s, polls), before + RunSeries(s, polls).1, closed, current)
  {
    if polls == [] {
      assert before + [] == before;
      return [], before;
    }
    var shorter, last := polls[..|polls| - 1], polls[|polls| - 1];
    closed, current := TraceFrom(s, before, shorter);
    var (e, actions) := RunSeries(s, shorter);
    ProcessKeepsFlags(e, last.snapshot, last.now);
    InThree(before, actions, Process(e, last.snapshot, last.now).1);
    closed, current := PollExtends(e, last, before + actions, closed, current);
  }

  lemma InThree(a: seq<Action>, b: seq<Action>, c: seq<Action>)
    ensures a + (b + c) == a + b + c
  {
  }

  // ----- a known format bounds the trace

  ghost predicate FormatFixed(format: nat, polls: seq<SeriesPoll>) {
    forall i | 0 <= i < |polls| && polls[i].snapshot.Some? :: polls[i].snapshot.value.format in {None, Some(format)}
  }

  lemma {:induction false} OpenedWithinFormat(s: LifecycleState, format: nat, polls: seq<SeriesPoll>)
    requires format >= 1 && s.format == Some(format) && s.openedThrough <= 1 && FormatFixed(format, polls)
    ensures StateAfter(s, polls).format == Some(format) && StateAfter(s, polls).openedThrough <= format
  {
    if polls != [] {
      OpenedWithinFormat(s, format, polls[..|polls| - 1]);
    }
  }

  lemma {:induction false} FlattenLength(lives: seq<seq<Action>>)
    requires forall i | 0 <= i < |lives| :: ClosedLife(i + 1, lives[i])
    ensures |Flatten(lives)| <= 3 * |lives|
  {
    if lives != [] { FlattenLength(lives[..|lives| - 1]); }
  }

  /** With a known format: no arena beyond it, and at most three actions a map and one for the decision. */
  lemma {:induction false} TraceIsBounded(start: int, startAfterMap1: bool, format: nat, polls: seq<SeriesPoll>)
    requires format >= 1 && FormatFixed(format, polls)
    ensures var (s, actions) := RunSeries(Begin(start, startAfterMap1, Some(format)), polls);
            s.openedThrough <= format && |actions| <= 3 * format + 1
  {
    OpenedWithinFormat(Begin(start, startAfterMap1, Some(format)), format, polls);
    var closed, current := EveryTraceIsASequenceOfMaps(start, startAfterMap1, Some(format), polls);
    FlattenLength(closed);
  }

  /** A decided or invalid series stays as it is. */
  lemma {:induction false} EndIsAbsorbing(s: LifecycleState, polls: seq<SeriesPoll>)
    requires Ended(s)
    ensures RunSeries(s, polls) == (s, [])
  {
    if polls != [] {
      EndIsAbsorbing(s, polls[..|polls| - 1]);
      var none: seq<Action> := [];
      assert none + none == none;
    }
  }

  // ----- when the reducer may act

  /** Without a readable snapshot only the clock speaks: the lobby opens on time, or the map is a no-show. */
  lemma MalformedPollIsTimedOnly(s: LifecycleState, now: int)
    requires !Ended(s)
    ensures var (next, actions) := Process(s, None, now);
            var opens := s.openedThrough == 0 && LobbyTime(s, now);
            var since := if s.openedThrough <= 1 then s.scheduledStartTime else s.openedThroughAt;
            var gone := (opens || s.openedThrough > 0) && !s.matchLiveDetected && now - since > NO_SHOW_TIMEOUT_MS;
            && actions == (if opens then [OpenArena(1)] else [])
                          + (if gone then [CancelArena(if opens then 1 else s.openedThrough, NoShow)] else [])
            && next.invalid == gone && !next.decided
            && next.forfeitPendingPolls == s.forfeitPendingPolls
  {
  }

  /** The poll shows map `k` scored although it was not live when it came. */
  predicate CarriesSignal(poll: SeriesPoll, k: nat) {
    poll.snapshot.Some? && ScoredMaps(poll.snapshot.value) >= k
  }

  /** The last readable poll carried the forfeit signal for map `k`. */
  ghost predicate SignalledLast(polls: seq<SeriesPoll>, k: nat) {
    exists j :: 0 <= j < |polls| && CarriesSignal(polls[j], k) && forall i | j < i < |polls| :: polls[i].snapshot.None?
  }

  lemma PendingStep(s: LifecycleState, poll: SeriesPoll)
    requires !Ended(s) && FlagsAgree(s) && s.forfeitPendingPolls <= 1
    requires s.forfeitPendingPolls == 1 ==> s.openedThrough > 0 && !s.matchLiveDetected
    ensures var (next, actions) := Process(s, poll.snapshot, poll.now);
            && next.forfeitPendingPolls <= 1 && (next.openedThrough == 0 ==> next.forfeitPendingPolls == 0)
            && (next.forfeitPendingPolls == 1 ==>
                  && !next.matchLiveDetected
                  && (CarriesSignal(poll, next.openedThrough)
                      || (s.forfeitPendingPolls == 1 && next.openedThrough == s.openedThrough
                          && (poll.snapshot.None? || next.invalid))))
            && (forall k, reason | CancelArena(k, reason) in actions && !reason.NoShow? ::
                  s.forfeitPendingPolls == 1 && s.openedThrough == k && CarriesSignal(poll, k) && !s.matchLiveDetected)
  {
  }

  lemma {:induction false} PendingMeansSignalled(start: int, startAfterMap1: bool, format: Option<nat>, polls: seq<SeriesPoll>)
    ensures var s := StateAfter(Begin(start, startAfterMap1, format), polls);
            && s.forfeitPendingPolls <= 1 && (s.openedThrough == 0 ==> s.forfeitPendingPolls == 0)
            && (s.forfeitPendingPolls == 1 && !Ended(s) ==> !s.matchLiveDetected && SignalledLast(polls, s.openedThrough))
  {
    if polls != [] {
      var shorter, last := polls[..|polls| - 1], polls[|polls| - 1];
      PendingMeansSignalled(start, startAfterMap1, format, shorter);
      var s := StateAfter(Begin(start, startAfterMap1, format), shorter);
      var next := StateAfter(Begin(start, startAfterMap1, format), polls);
      if Ended(s) { return; }
      LiveFlagsAlwaysAgree(start, startAfterMap1, format, shorter);
      PendingStep(s, last);
      if next.forfeitPendingPolls == 1 && !Ended(next) {
        if CarriesSignal(last, next.openedThrough) {
          assert CarriesSignal(polls[|polls| - 1], next.openedThrough);
        } else {
          var j :| 0 <= j < |shorter| && CarriesSignal(shorter[j], s.openedThrough)
                   && forall i | j < i < |shorter| :: shorter[i].snapshot.None?;
          assert CarriesSignal(polls[j], next.openedThrough);
          assert forall i | j < i < |polls| :: i < |shorter| ==> polls[i] == shorter[i];
        }
      }
    }
  }

  /**
   * A forfeit, or a cancellation because the series is over, takes two successive readable polls that
   * both carry the signal for that map, which was not live when the first one came.
   */
  lemma {:induction false} ForfeitNeedsTwoSignals(
    start: int, startAfterMap1: bool, format: Option<nat>, polls: seq<SeriesPoll>, poll: SeriesPoll, k: nat, reason: CancelReason)
    requires CancelArena(k, reason) in Process(StateAfter(Begin(start, startAfterMap1, format), polls), poll.snapshot, poll.now).1
    requires !reason.NoShow?
    ensures SignalledLast(polls, k) && CarriesSignal(poll, k)
    ensures !StateAfter(Begin(start, startAfterMap1, format), polls).matchLiveDetected
  {
    PendingMeansSignalled(start, startAfterMap1, format, polls);
    LiveFlagsAlwaysAgree(start, startAfterMap1, format, polls);
    var s := StateAfter(Begin(start, startAfterMap1, format), polls);
    PendingStep(s, poll);
  }
}

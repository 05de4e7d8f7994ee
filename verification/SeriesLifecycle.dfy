/** The series reducer: one poll of the series state to arena actions (cs2/series-lifecycle.ts). */
module SeriesLifecycle {
  import opened Cs2Types

  const LOBBY_OPEN_BEFORE_START_MS := 10 * 60 * 1000
  const NO_SHOW_TIMEOUT_MS := 60 * 60 * 1000

  datatype DecidedReason = Clinch | AllMapsPlayed
  datatype CancelReason = NoShow | SeriesOver | Forfeit

  datatype Action =
    | OpenArena(matchIndex: nat)
    | MatchLiveDetected(matchIndex: nat)
    | MatchEnded(matchIndex: nat)
    | SeriesDecided(why: DecidedReason)
    | CancelArena(matchIndex: nat, reason: CancelReason)

  /** `format` is the best-of count, always positive when known; the scores count maps won. */
  datatype SeriesSnapshot = SeriesSnapshot(format: Option<nat>, hasLiveGame: bool, scoreA: int, scoreB: int)

  datatype LifecycleState = LifecycleState(
    scheduledStartTime: int,
    format: Option<nat>,
    openedThrough: nat,
    openedThroughAt: int,
    matchLiveDetected: bool,
    lastHasLiveGame: bool,
    forfeitPendingPolls: nat,
    decided: bool,
    invalid: bool)

  /** `startAfterMap1` joins while map 1 is live: it counts as opened and live, with no arena of ours. */
  function InitialState(scheduledStartTime: int, startAfterMap1: bool): LifecycleState {
    LifecycleState(scheduledStartTime, None, if startAfterMap1 then 1 else 0, scheduledStartTime,
                   startAfterMap1, startAfterMap1, 0, false, false)
  }

  function WinsNeeded(format: nat): nat { format / 2 + 1 }

  predicate Clinched(format: nat, s: SeriesSnapshot) {
    s.scoreA >= WinsNeeded(format) || s.scoreB >= WinsNeeded(format)
  }

  predicate IsSeriesDecided(format: Option<nat>, matchesCompleted: int, s: SeriesSnapshot) {
    format.Some? && (matchesCompleted >= format.value || Clinched(format.value, s))
  }

  function DecidedReasonOf(format: nat, s: SeriesSnapshot): DecidedReason {
    if Clinched(format, s) then Clinch else AllMapsPlayed
  }

  function ScoredMaps(s: SeriesSnapshot): int { s.scoreA + s.scoreB }

  predicate Ended(s: LifecycleState) { s.decided || s.invalid }

  // ----- the reducer, stage by stage

  predicate LobbyTime(s: LifecycleState, now: int) {
    now >= s.scheduledStartTime - LOBBY_OPEN_BEFORE_START_MS
  }

  /** Arena 1 measures from the scheduled start, later ones from when they opened. */
  predicate NoShowTime(s: LifecycleState, now: int) {
    now - (if s.openedThrough == 1 then s.scheduledStartTime else s.openedThroughAt) > NO_SHOW_TIMEOUT_MS
  }

  predicate IsNoShow(s: LifecycleState, snapshot: Option<SeriesSnapshot>, now: int) {
    !s.matchLiveDetected && !(snapshot.Some? && snapshot.value.hasLiveGame) && NoShowTime(s, now)
  }

  /** The feed counts the current map as decided although it was never seen live. */
  predicate ForfeitSignal(s: LifecycleState, snapshot: SeriesSnapshot) {
    !s.matchLiveDetected && ScoredMaps(snapshot) >= s.openedThrough
  }

  function OpenNext(s: LifecycleState, now: int): LifecycleState {
    s.(openedThrough := s.openedThrough + 1, openedThroughAt := now, matchLiveDetected := false)
  }

  function ForfeitMap(s: LifecycleState, snapshot: SeriesSnapshot, now: int): (LifecycleState, seq<Action>) {
    var k := s.openedThrough;
    if IsSeriesDecided(s.format, ScoredMaps(snapshot), snapshot) then
      (s.(decided := true, forfeitPendingPolls := 0),
       [CancelArena(k, SeriesOver), SeriesDecided(DecidedReasonOf(s.format.value, snapshot))])
    else
      (OpenNext(s, now).(forfeitPendingPolls := 0), [CancelArena(k, Forfeit), OpenArena(k + 1)])
  }

  function EndMap(s: LifecycleState, snapshot: SeriesSnapshot, now: int): (LifecycleState, seq<Action>) {
    var k, seen := s.openedThrough, s.(lastHasLiveGame := false);
    if IsSeriesDecided(s.format, k, snapshot) then
      (seen.(decided := true), [MatchEnded(k), SeriesDecided(DecidedReasonOf(s.format.value, snapshot))])
    else
      (OpenNext(seen, now), [MatchEnded(k), OpenArena(k + 1)])
  }

  function OnLiveEdges(s: LifecycleState, snapshot: SeriesSnapshot, signal: bool, now: int): (LifecycleState, seq<Action>) {
    if snapshot.hasLiveGame && !s.lastHasLiveGame then
      // With the forfeit signal this live game belongs to the next map: leave the edge unrecorded.
      if signal then (s, [])
      else (s.(matchLiveDetected := true, lastHasLiveGame := true), [MatchLiveDetected(s.openedThrough)])
    else if !snapshot.hasLiveGame && s.lastHasLiveGame then EndMap(s, snapshot, now)
    else (s, [])
  }

  function OnSnapshot(s: LifecycleState, snapshot: SeriesSnapshot, now: int): (LifecycleState, seq<Action>) {
    var signal := ForfeitSignal(s, snapshot);
    if signal && s.forfeitPendingPolls + 1 >= 2 then ForfeitMap(s, snapshot, now)
    else OnLiveEdges(s.(forfeitPendingPolls := if signal then s.forfeitPendingPolls + 1 else 0), snapshot, signal, now)
  }

  function OnOpened(s: LifecycleState, snapshot: Option<SeriesSnapshot>, now: int): (LifecycleState, seq<Action>) {
    if IsNoShow(s, snapshot, now) then (s.(invalid := true), [CancelArena(s.openedThrough, NoShow)])
    else if snapshot.None? then (s, [])
    else OnSnapshot(s, snapshot.value, now)
  }

  function WithFormat(s: LifecycleState, snapshot: Option<SeriesSnapshot>): LifecycleState {
    if snapshot.Some? && snapshot.value.format.Some? then s.(format := snapshot.value.format) else s
  }

  function Process(s: LifecycleState, snapshot: Option<SeriesSnapshot>, now: int): (LifecycleState, seq<Action>) {
    if Ended(s) then (s, [])
    else
      var known := WithFormat(s, snapshot);
      if known.openedThrough > 0 then OnOpened(known, snapshot, now)
      else if !LobbyTime(known, now) then (known, [])
      else
        var (next, actions) := OnOpened(known.(openedThrough := 1, openedThroughAt := now), snapshot, now);
        (next, [OpenArena(1)] + actions)
  }

  /** The reducer as the source runs it: `next` and `actions` are built up, with early returns. */
  method ProcessCs2SeriesPoll(state: LifecycleState, snapshot: Option<SeriesSnapshot>, now: int)
    returns (next: LifecycleState, actions: seq<Action>)
    ensures (next, actions) == Process(state, snapshot, now)
  {
    next, actions := state, [];
    if state.decided || state.invalid { return; }
    if snapshot.Some? && snapshot.value.format.Some? && snapshot.value.format != next.format {
      next := next.(format := snapshot.value.format);
    }
    if next.openedThrough == 0 {
      if now < next.scheduledStartTime - LOBBY_OPEN_BEFORE_START_MS { return; }
      actions := [OpenArena(1)];
      next := next.(openedThrough := 1, openedThroughAt := now);
    }
    var rest;
    next, rest := ProcessOpened(next, snapshot, now);
    actions := actions + rest;
    assert state.openedThrough > 0 ==> actions == rest;
  }

  /** The part of the poll that follows once an arena is open. */
  method ProcessOpened(state: LifecycleState, snapshot: Option<SeriesSnapshot>, now: int)
    returns (next: LifecycleState, actions: seq<Action>)
    ensures (next, actions) == OnOpened(state, snapshot, now)
  {
    next, actions := state, [];
    var k := next.openedThrough;
    if !next.matchLiveDetected && !(snapshot.Some? && snapshot.value.hasLiveGame) {
      var since := if k == 1 then next.scheduledStartTime else next.openedThroughAt;
      if now - since > NO_SHOW_TIMEOUT_MS {
        return next.(invalid := true), [CancelArena(k, NoShow)];
      }
    }
    if snapshot.None? { return; }

    var s := snapshot.value;
    var forfeitSignal := !next.matchLiveDetected && ScoredMaps(s) >= k;
    if forfeitSignal {
      var pending := next.forfeitPendingPolls + 1;
      if pending >= 2 {
        var decided := IsSeriesDecided(next.format, ScoredMaps(s), s);
        if decided {
          return next.(decided := true, forfeitPendingPolls := 0),
            [CancelArena(k, SeriesOver), SeriesDecided(DecidedReasonOf(next.format.value, s))];
        }
        return next.(openedThrough := k + 1, openedThroughAt := now, matchLiveDetected := false, forfeitPendingPolls := 0),
          [CancelArena(k, Forfeit), OpenArena(k + 1)];
      }
      next := next.(forfeitPendingPolls := pending);
    } else if next.forfeitPendingPolls != 0 {
      next := next.(forfeitPendingPolls := 0);
    }

    if s.hasLiveGame && !next.lastHasLiveGame {
      if forfeitSignal { return; }
      actions := [MatchLiveDetected(k)];
      next := next.(matchLiveDetected := true);
    } else if !s.hasLiveGame && next.lastHasLiveGame {
      actions := [MatchEnded(k)];
      if IsSeriesDecided(next.format, k, s) {
        actions := actions + [SeriesDecided(DecidedReasonOf(next.format.value, s))];
        assert actions == [MatchEnded(k), SeriesDecided(DecidedReasonOf(next.format.value, s))];
        next := next.(decided := true);
      } else {
        actions := actions + [OpenArena(k + 1)];
        assert actions == [MatchEnded(k), OpenArena(k + 1)];
        next := next.(openedThrough := k + 1, openedThroughAt := now, matchLiveDetected := false);
      }
    }
    next := next.(lastHasLiveGame := s.hasLiveGame);
  }
}

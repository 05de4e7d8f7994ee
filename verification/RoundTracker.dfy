/** Snapshot polls to round signals (cs2/round-tracker.ts). */
module RoundTracker {
  import opened Cs2Types

  datatype TrackerState = TrackerState(
    lastSnapshot: Option<GameSnapshot>,
    roundInProgress: Option<int>,
    lockSnapshot: Option<GameSnapshot>,
    lockedRound: Option<int>)

  const INITIAL := TrackerState(None, None, None, None)

  datatype Signal =
    | SnapshotSeen(snapshot: GameSnapshot)
    | RoundLock(number: int)
    | RoundEnd(number: int, after: GameSnapshot)
    | MatchEnd

  /** The new score moved the round in progress forward by exactly one, with an observed lock behind it. */
  predicate EndsRound(t: TrackerState, now: GameSnapshot) {
    t.roundInProgress.Some? && DeriveRoundNumber(now) - t.roundInProgress.value == 1 && t.lockSnapshot.Some?
  }

  /** The state once the score was read, before the clock is looked at. */
  function ScoreRead(t: TrackerState, now: GameSnapshot): TrackerState {
    var n := DeriveRoundNumber(now);
    if t.roundInProgress.None? then t.(roundInProgress := Some(n))
    else t.(roundInProgress := Some(n),
            lockSnapshot := if n - t.roundInProgress.value in {0, 1} then t.lockSnapshot else None)
  }

  predicate LocksRound(t: TrackerState, now: GameSnapshot) {
    && t.lastSnapshot.Some?
    && IsRoundLive(t.lastSnapshot.value, now)
    && t.lockedRound != Some(DeriveRoundNumber(now))
  }

  function Track(t: TrackerState, snapshot: Option<GameSnapshot>): (TrackerState, seq<Signal>) {
    match snapshot
    case None => if t.lastSnapshot.None? then (t, []) else (INITIAL, [MatchEnd])
    case Some(now) =>
      var n := DeriveRoundNumber(now);
      if t.lastSnapshot.Some? && !HaveSameTeams(t.lastSnapshot.value, now) then
        (TrackerState(Some(now), Some(n), None, None), [SnapshotSeen(now)])
      else
        var scored := ScoreRead(t, now);
        var ends := if EndsRound(t, now) then [RoundEnd(n - 1, now)] else [];
        if LocksRound(t, now) then
          (TrackerState(Some(now), scored.roundInProgress, Some(now), Some(n)),
           [SnapshotSeen(now)] + ends + [RoundLock(n)])
        else
          (scored.(lastSnapshot := Some(now)), [SnapshotSeen(now)] + ends)
  }

  method TrackCs2Poll(state: TrackerState, snapshot: Option<GameSnapshot>)
    returns (nextState: TrackerState, signals: seq<Signal>)
    ensures (nextState, signals) == Track(state, snapshot)
  {
    if snapshot.None? {
      if state.lastSnapshot.None? { return state, []; }
      return INITIAL, [MatchEnd];
    }
    var now := snapshot.value;
    signals := [SnapshotSeen(now)];
    var current := DeriveRoundNumber(now);

    if state.lastSnapshot.Some? && !HaveSameTeams(state.lastSnapshot.value, now) {
      return INITIAL.(lastSnapshot := Some(now), roundInProgress := Some(current)), signals;
    }

    nextState := state;
    if state.roundInProgress.None? {
      nextState := nextState.(roundInProgress := Some(current));
    } else if current != state.roundInProgress.value {
      var advanced := current - state.roundInProgress.value;
      // A gap over several rounds cannot attribute stat changes to one of them.
      if advanced == 1 && state.lockSnapshot.Some? {
        signals := signals + [RoundEnd(state.roundInProgress.value, now)];
      }
      nextState := nextState.(roundInProgress := Some(current));
      if advanced != 1 {
        nextState := nextState.(lockSnapshot := None);
      }
    }
    if state.lastSnapshot.Some? && IsRoundLive(state.lastSnapshot.value, now) && nextState.lockedRound != Some(current) {
      signals := signals + [RoundLock(current)];
      nextState := nextState.(lockSnapshot := Some(now), lockedRound := Some(current));
    }
    nextState := nextState.(lastSnapshot := Some(now));
    assert [SnapshotSeen(now)] + [] == [SnapshotSeen(now)];
  }
}

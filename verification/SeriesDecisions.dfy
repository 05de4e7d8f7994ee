/** What a poll of a series does, in the score and the clock alone (cs2/series-lifecycle.ts). */
module SeriesDecisions {
  import opened Cs2Types
  import opened SeriesLifecycle
  import opened SeriesRuns

  /** A team has won more than half of the maps. */
  predicate MoreThanHalf(format: nat, s: SeriesSnapshot) { 2 * s.scoreA > format || 2 * s.scoreB > format }

  /** The series is over once its maps are played or a team has more than half of them. */
  predicate IsOver(format: nat, completed: int, s: SeriesSnapshot) { completed >= format || MoreThanHalf(format, s) }

  function WhyOver(format: nat, s: SeriesSnapshot): DecidedReason { if MoreThanHalf(format, s) then Clinch else AllMapsPlayed }

  /** The map the state is at once a poll of `now` came in, or zero before the lobby opens ten minutes ahead of the start. */
  function MapAt(s: LifecycleState, now: int): nat {
    if s.openedThrough == 0 && now >= s.scheduledStartTime - 600_000 then 1 else s.openedThrough
  }

  /** That map waits for longer than an hour, the first one from the scheduled start and the others from their opening. */
  predicate Overdue(s: LifecycleState, now: int) {
    && MapAt(s, now) > 0 && !s.matchLiveDetected
    && now - (if s.openedThrough <= 1 then s.scheduledStartTime else s.openedThroughAt) > 3_600_000
  }

  predicate ShowsLive(snapshot: Option<SeriesSnapshot>) { snapshot.Some? && snapshot.value.hasLiveGame }

  /** The score already counts the map although it was never live. */
  predicate Skipped(s: LifecycleState, snapshot: Option<SeriesSnapshot>, now: int) {
    !s.matchLiveDetected && snapshot.Some? && snapshot.value.scoreA + snapshot.value.scoreB >= MapAt(s, now)
  }

  datatype What = Nothing | GoneMissing | Forfeited | WentLive | Over

  /** Which of its five things a poll does to the map it finds, for a state whose two live flags agree. */
  function WhatHappens(s: LifecycleState, snapshot: Option<SeriesSnapshot>, now: int): What {
    if Ended(s) || MapAt(s, now) == 0 then Nothing
    else if Overdue(s, now) && !ShowsLive(snapshot) then GoneMissing
    else if snapshot.None? then Nothing
    else if Skipped(s, snapshot, now) then (if s.forfeitPendingPolls >= 1 then Forfeited else Nothing)
    else if snapshot.value.hasLiveGame && !s.matchLiveDetected then WentLive
    else if !snapshot.value.hasLiveGame && s.matchLiveDetected then Over
    else Nothing
  }

  function Opening(s: LifecycleState, now: int): seq<Action> {
    if !Ended(s) && s.openedThrough == 0 && MapAt(s, now) == 1 then [OpenArena(1)] else []
  }

  /** What follows a map that is over or was forfeited. */
  function Afterwards(format: Option<nat>, k: nat, completed: int, s: SeriesSnapshot): seq<Action> {
    if format.Some? && IsOver(format.value, completed, s) then [SeriesDecided(WhyOver(format.value, s))] else [OpenArena(k + 1)]
  }

  function ActionsOf(s: LifecycleState, snapshot: Option<SeriesSnapshot>, now: int, format: Option<nat>): seq<Action> {
    var k := MapAt(s, now);
    match WhatHappens(s, snapshot, now)
    case Nothing => []
    case GoneMissing => [CancelArena(k, NoShow)]
    case WentLive => [MatchLiveDetected(k)]
    case Over => if snapshot.None? then [] else [MatchEnded(k)] + Afterwards(format, k, k, snapshot.value)
    case Forfeited =>
      if snapshot.None? then []
      else
        var completed := snapshot.value.scoreA + snapshot.value.scoreB;
        var next := Afterwards(format, k, completed, snapshot.value);
        [CancelArena(k, if next[0].SeriesDecided? then SeriesOver else Forfeit)] + next
  }

  function FormatNow(s: LifecycleState, snapshot: Option<SeriesSnapshot>): Option<nat> {
    if snapshot.Some? && snapshot.value.format.Some? then snapshot.value.format else s.format
  }

  /** What every reachable state satisfies: the live flags agree, and at most one forfeit signal of an opened map is pending. */
  predicate Sound(s: LifecycleState) {
    FlagsAgree(s) && s.forfeitPendingPolls <= 1 && (s.openedThrough == 0 ==> s.forfeitPendingPolls == 0)
  }

  lemma EveryRunIsSound(start: int, startAfterMap1: bool, format: Option<nat>, polls: seq<SeriesPoll>)
    ensures Sound(StateAfter(Begin(start, startAfterMap1, format), polls))
  {
    LiveFlagsAlwaysAgree(start, startAfterMap1, format, polls);
    PendingMeansSignalled(start, startAfterMap1, format, polls);
  }

  /** The actions of a poll are these and no others. */
  lemma PollActsExactly(s: LifecycleState, snapshot: Option<SeriesSnapshot>, now: int)
    requires Sound(s)
    ensures Process(s, snapshot, now).1 == Opening(s, now) + ActionsOf(s, snapshot, now, FormatNow(s, snapshot))
  {
  }

  ghost predicate Opens(actions: seq<Action>) { exists k: nat :: OpenArena(k) in actions }
  ghost predicate Ends(actions: seq<Action>) { exists k: nat :: MatchEnded(k) in actions }
  ghost predicate Decides(actions: seq<Action>) { exists why :: SeriesDecided(why) in actions }
  ghost predicate GivesUp(actions: seq<Action>) { exists k: nat :: CancelArena(k, NoShow) in actions }

  /** The state after a poll, from the actions it brought; only a pending forfeit signal shows in none of them. */
  ghost predicate Follows(s: LifecycleState, next: LifecycleState, actions: seq<Action>, now: int) {
    && next.scheduledStartTime == s.scheduledStartTime
    && (next.decided <==> Decides(actions)) && (next.invalid <==> GivesUp(actions))
    && (forall k: nat | OpenArena(k) in actions :: s.openedThrough < k <= next.openedThrough)
    && (if Opens(actions) then OpenArena(next.openedThrough) in actions else next.openedThrough == s.openedThrough)
    && next.openedThroughAt == (if Opens(actions) then now else s.openedThroughAt)
    && (next.matchLiveDetected <==>
          || MatchLiveDetected(next.openedThrough) in actions
          || (s.matchLiveDetected && (!Ends(actions) || next.decided)))
  }

  /** The map goes over to the next one. */
  predicate Advances(s: LifecycleState, snapshot: Option<SeriesSnapshot>, now: int) {
    && snapshot.Some? && WhatHappens(s, snapshot, now) in {Over, Forfeited}
    && var completed := if WhatHappens(s, snapshot, now) == Over then MapAt(s, now)
                        else snapshot.value.scoreA + snapshot.value.scoreB;
       !(FormatNow(s, snapshot).Some? && IsOver(FormatNow(s, snapshot).value, completed, snapshot.value))
  }

  lemma NextFields(s: LifecycleState, snapshot: Option<SeriesSnapshot>, now: int)
    requires Sound(s) && !Ended(s)
    ensures var next, what, on := Process(s, snapshot, now).0, WhatHappens(s, snapshot, now), Advances(s, snapshot, now);
            && next.scheduledStartTime == s.scheduledStartTime
            && (next.decided <==> what in {Over, Forfeited} && !on) && (next.invalid <==> what == GoneMissing)
            && next.openedThrough == MapAt(s, now) + (if on then 1 else 0)
            && next.openedThroughAt == (if on || MapAt(s, now) > s.openedThrough then now else s.openedThroughAt)
            && (next.matchLiveDetected <==> what == WentLive || (s.matchLiveDetected && !on))
  {
  }

  /** The actions of each case, one by one. */
  lemma ActionsByCase(s: LifecycleState, snapshot: Option<SeriesSnapshot>, now: int)
    requires Sound(s) && !Ended(s)
    ensures var k, what, on := MapAt(s, now), WhatHappens(s, snapshot, now), Advances(s, snapshot, now);
            var actions, first := Process(s, snapshot, now).1, if k > s.openedThrough then [OpenArena(1)] else [];
            && (k > s.openedThrough ==> k == 1 && s.openedThrough == 0)
            && match what
               case Nothing => actions == first
               case GoneMissing => actions == first + [CancelArena(k, NoShow)]
               case WentLive => actions == first + [MatchLiveDetected(k)]
               case Over =>
                 && first == [] && s.matchLiveDetected && |actions| == 2 && actions[0] == MatchEnded(k)
                 && (if on then actions[1] == OpenArena(k + 1) else actions[1].SeriesDecided?)
               case Forfeited =>
                 && first == [] && !s.matchLiveDetected && |actions| == 2
                 && actions[0] == CancelArena(k, if on then Forfeit else SeriesOver)
                 && if on then actions[1] == OpenArena(k + 1) else actions[1].SeriesDecided?
  {
    PollActsExactly(s, snapshot, now);
  }

  lemma {:induction false} StateFollowsActions(s: LifecycleState, snapshot: Option<SeriesSnapshot>, now: int)
    requires Sound(s) && !Ended(s)
    ensures Follows(s, Process(s, snapshot, now).0, Process(s, snapshot, now).1, now)
  {
    NextFields(s, snapshot, now);
    ActionsByCase(s, snapshot, now);
    FollowsByCase(s, Process(s, snapshot, now).0, Process(s, snapshot, now).1, now, MapAt(s, now),
                  WhatHappens(s, snapshot, now), Advances(s, snapshot, now));
  }

  lemma FollowsByCase(s: LifecycleState, next: LifecycleState, actions: seq<Action>, now: int, k: nat, what: What, on: bool)
    requires k >= s.openedThrough && (k > s.openedThrough ==> k == 1 && s.openedThrough == 0)
    requires next.scheduledStartTime == s.scheduledStartTime && (on ==> what in {Over, Forfeited})
    requires (next.decided <==> what in {Over, Forfeited} && !on) && (next.invalid <==> what == GoneMissing)
    requires next.openedThrough == k + (if on then 1 else 0)
    requires next.openedThroughAt == (if on || k > s.openedThrough then now else s.openedThroughAt)
    requires next.matchLiveDetected <==> what == WentLive || (s.matchLiveDetected && !on)
    requires var first := if k > s.openedThrough then [OpenArena(1)] else [];
             match what
             case Nothing => actions == first
             case GoneMissing => actions == first + [CancelArena(k, NoShow)]
             case WentLive => actions == first + [MatchLiveDetected(k)]
             case Over =>
               && first == [] && s.matchLiveDetected && |actions| == 2 && actions[0] == MatchEnded(k)
               && (if on then actions[1] == OpenArena(k + 1) else actions[1].SeriesDecided?)
             case Forfeited =>
               && first == [] && !s.matchLiveDetected && |actions| == 2
               && actions[0] == CancelArena(k, if on then Forfeit else SeriesOver)
               && if on then actions[1] == OpenArena(k + 1) else actions[1].SeriesDecided?
    ensures Follows(s, next, actions, now)
  {
    forall i | 0 <= i < |actions| ensures actions[i] in actions { }
    if what == Over || what == Forfeited { assert actions == [actions[0], actions[1]]; }
  }

  /** The format is the last one shown; a forfeit signal is pending after a readable poll that carried one and forfeited nothing. */
  lemma PendingAndFormatAfter(s: LifecycleState, snapshot: Option<SeriesSnapshot>, now: int)
    requires Sound(s) && !Ended(s)
    ensures var next, what := Process(s, snapshot, now).0, WhatHappens(s, snapshot, now);
            && next.format == FormatNow(s, snapshot)
            && next.forfeitPendingPolls
               == if snapshot.None? || what == GoneMissing || MapAt(s, now) == 0 then s.forfeitPendingPolls
                  else if Skipped(s, snapshot, now) && what != Forfeited then 1 else 0
  {
  }

  // ----- every run of a series with a known format

  function Actions(start: int, startAfterMap1: bool, format: nat, polls: seq<SeriesPoll>, poll: SeriesPoll): seq<Action> {
    Process(StateAfter(Begin(start, startAfterMap1, Some(format)), polls), poll.snapshot, poll.now).1
  }

  /** Either the series is decided, with the right reason, or the next map opens. */
  predicate GoesOnRightly(actions: seq<Action>, format: nat, k: nat, completed: int, s: SeriesSnapshot) {
    && (OpenArena(k + 1) in actions <==> 2 * s.scoreA <= format && 2 * s.scoreB <= format && completed < format)
    && (OpenArena(k + 1) !in actions <==> exists why :: SeriesDecided(why) in actions)
    && (forall why | SeriesDecided(why) in actions ::
          why == if 2 * s.scoreA > format || 2 * s.scoreB > format then Clinch else AllMapsPlayed)
  }

  lemma {:induction false} FormatStays(start: int, startAfterMap1: bool, format: nat, polls: seq<SeriesPoll>)
    requires FormatFixed(format, polls)
    ensures var s := StateAfter(Begin(start, startAfterMap1, Some(format)), polls);
            s.format == Some(format) && Sound(s)
  {
    EveryRunIsSound(start, startAfterMap1, Some(format), polls);
    if polls != [] { FormatStays(start, startAfterMap1, format, polls[..|polls| - 1]); }
  }

  /**
   * Over every run with a known format: a poll that ends a map, or gives it up, opens the next one exactly if maps are
   * left and no team has more than half of them; otherwise it decides the series, and says why.
   */
  lemma {:induction false} DecidedExactlyWhen(
    start: int, startAfterMap1: bool, format: nat, polls: seq<SeriesPoll>, poll: SeriesPoll, k: nat)
    requires FormatFixed(format, polls + [poll])
    ensures var actions := Actions(start, startAfterMap1, format, polls, poll);
            && (MatchEnded(k) in actions ==>
                  poll.snapshot.Some? && GoesOnRightly(actions, format, k, k, poll.snapshot.value))
            && (forall reason | CancelArena(k, reason) in actions && reason != NoShow ::
                  && poll.snapshot.Some?
                  && var s := poll.snapshot.value;
                     GoesOnRightly(actions, format, k, s.scoreA + s.scoreB, s)
                     && (reason == SeriesOver <==> OpenArena(k + 1) !in actions))
  {
    var s := StateAfter(Begin(start, startAfterMap1, Some(format)), polls);
    FormatBefore(format, polls, poll);
    FormatStays(start, startAfterMap1, format, polls);
    if !Ended(s) && poll.snapshot.Some? { MapEnds(s, poll.snapshot.value, poll.now, format); }
  }

  lemma MapEnds(s: LifecycleState, shown: SeriesSnapshot, now: int, format: nat)
    requires Sound(s) && !Ended(s) && FormatNow(s, Some(shown)) == Some(format)
    ensures var actions, k := Process(s, Some(shown), now).1, MapAt(s, now);
            && (forall m: nat | MatchEnded(m) in actions :: m == k && GoesOnRightly(actions, format, k, k, shown))
            && (forall m: nat, reason | CancelArena(m, reason) in actions && reason != NoShow ::
                  && m == k && GoesOnRightly(actions, format, k, shown.scoreA + shown.scoreB, shown)
                  && (reason == SeriesOver <==> OpenArena(k + 1) !in actions))
  {
    var k, completed := MapAt(s, now), shown.scoreA + shown.scoreB;
    PollActsExactly(s, Some(shown), now);
    ActionsByCase(s, Some(shown), now);
    match WhatHappens(s, Some(shown), now)
    case Over => WhatFollows(format, k, k, shown, MatchEnded(k));
    case Forfeited =>
      WhatFollows(format, k, completed, shown, CancelArena(k, SeriesOver));
      WhatFollows(format, k, completed, shown, CancelArena(k, Forfeit));
    case _ =>
  }

  lemma WhatFollows(format: nat, k: nat, completed: int, s: SeriesSnapshot, first: Action)
    requires first.MatchEnded? || first.CancelArena?
    ensures GoesOnRightly([first] + Afterwards(Some(format), k, completed, s), format, k, completed, s)
    ensures Afterwards(Some(format), k, completed, s)[0].SeriesDecided?
            <==> OpenArena(k + 1) !in [first] + Afterwards(Some(format), k, completed, s)
  {
    var actions := [first] + Afterwards(Some(format), k, completed, s);
    assert actions[1] in actions;
  }

  lemma FormatBefore(format: nat, polls: seq<SeriesPoll>, poll: SeriesPoll)
    requires FormatFixed(format, polls + [poll])
    ensures FormatFixed(format, polls) && (poll.snapshot.Some? ==> poll.snapshot.value.format in {None, Some(format)})
  {
    assert forall i | 0 <= i < |polls| :: (polls + [poll])[i] == polls[i];
    assert (polls + [poll])[|polls|] == poll;
  }

  /** Where a team has more than half of the maps, only the lobby of the first map ever opens, on the clock alone. */
  lemma {:induction false} NoArenaAfterTheClinch(
    start: int, startAfterMap1: bool, format: nat, polls: seq<SeriesPoll>, poll: SeriesPoll, k: nat)
    requires FormatFixed(format, polls + [poll]) && poll.snapshot.Some? && MoreThanHalf(format, poll.snapshot.value)
    ensures var s := StateAfter(Begin(start, startAfterMap1, Some(format)), polls);
            OpenArena(k) in Actions(start, startAfterMap1, format, polls, poll)
            <==> k == 1 && !Ended(s) && s.openedThrough == 0 && poll.now >= s.scheduledStartTime - 600_000
  {
    var s := StateAfter(Begin(start, startAfterMap1, Some(format)), polls);
    FormatBefore(format, polls, poll);
    FormatStays(start, startAfterMap1, format, polls);
    PollActsExactly(s, poll.snapshot, poll.now);
    var opening := Opening(s, poll.now);
    if opening != [] { assert opening[0] == OpenArena(1); assert OpenArena(1) in opening; }
  }

  /** Such a first lobby: the first poll, at lobby time, already shows two maps to nil of three. */
  lemma ALobbyOpensForADecidedSeries()
    ensures var poll := SeriesPoll(Some(SeriesSnapshot(Some(3), false, 2, 0)), 0);
            Actions(0, false, 3, [], poll) == [OpenArena(1)]
  {
  }
}

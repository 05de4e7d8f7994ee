/** The launcher and its forecast in the fields of the series and the clock alone (cs2/next-series.ts, cs2/arena-forecast.ts). */
module LaunchRules {
  import opened Cs2Types
  import opened NextSeries
  import opened ArenaForecast

  /** Selectable, active, without an arena or a skip, and started at most half an hour ago. */
  predicate MayLaunch(c: Candidate, now: int) {
    && c.selectable && c.status == Active && !c.hasArena && !c.skipRequested
    && now - c.start <= 1_800_000
  }

  /** `a` goes before `b`: it starts earlier; or at the same time with priority; or with more followers; or by the draw. */
  predicate Precedes(a: Candidate, b: Candidate, draw: Uuid -> int) {
    || a.start < b.start
    || (a.start == b.start
        && (|| (a.priority && !b.priority)
            || (a.priority == b.priority
                && (|| a.followerCount > b.followerCount
                    || (a.followerCount == b.followerCount && draw(a.seriesId) < draw(b.seriesId))))))
  }

  /** What the launcher does, whatever the draw: it launches from ten minutes before the start on, and waits for that until then. */
  lemma LauncherMeans(cs: seq<Candidate>, now: int, draw: Uuid -> int)
    ensures var choice := SelectNextSeries(cs, now, draw);
            && (choice == NoSeries <==> forall c | c in cs :: !MayLaunch(c, now))
            && (choice != NoSeries ==>
                  && choice.series in cs && MayLaunch(choice.series, now)
                  && (forall c | c in cs && MayLaunch(c, now) :: !Precedes(c, choice.series, draw))
                  && (choice.Launch? <==> choice.series.start - now <= 600_000)
                  && (choice.Wait? ==> choice.at == choice.series.start - 600_000))
  {
    LauncherTakesTheFirst(cs, now, draw);
    assert forall c :: IsLaunchCandidate(c, now) == MayLaunch(c, now);
    assert forall a, b :: GoesFirst(a, b, draw) == Precedes(a, b, draw);
    var eligible := Eligible(cs, now);
    if eligible != [] {
      EarliestIsReached(eligible);
      StartingAtMeans(eligible, Earliest(eligible));
      FirstMeans(StartingAt(eligible, Earliest(eligible)), draw);
    }
  }

  // ----- the slot

  /** A best of three takes four hours, a best of five six, and any other one and a half hours a map. */
  lemma DurationsAre(format: nat)
    ensures ExpectedSeriesDurationMs(format)
         == if format == 3 then 14_400_000 else if format == 5 then 21_600_000 else 5_400_000 * format
  {
  }

  predicate Holds(c: Candidate, running: Option<Uuid>) { c.status == Active && (c.hasArena || running == Some(c.seriesId)) }

  function ExpectedEnd(c: Candidate): int { c.start + ExpectedSeriesDurationMs(c.format) }

  /** The slot is taken while some series runs, until the latest expected end of those, or now if that has passed. */
  lemma {:induction false} SlotFreesAt(cs: seq<Candidate>, now: int, running: Option<Uuid>)
    ensures var freeAt := SlotFreeAt(cs, now, running);
            && (freeAt == None <==> forall c | c in cs :: !Holds(c, running))
            && (freeAt != None ==>
                  && freeAt.value >= now && (forall c | c in cs && Holds(c, running) :: freeAt.value >= ExpectedEnd(c))
                  && (freeAt.value == now || exists c :: c in cs && Holds(c, running) && freeAt.value == ExpectedEnd(c)))
  {
    if cs != [] {
      var shorter, last := cs[..|cs| - 1], cs[|cs| - 1];
      SlotFreesAt(shorter, now, running);
      assert cs == shorter + [last];
      assert last in cs;
      var before, freeAt := SlotFreeAt(shorter, now, running), SlotFreeAt(cs, now, running);
      if before != None && freeAt == before && before.value != now {
        var c :| c in shorter && Holds(c, running) && before.value == ExpectedEnd(c);
        assert c in cs;
      }
    }
  }

  /** An expected series starts on time or when the slot frees, whichever is later, and is taken if that is not too late. */
  lemma SlotIsTaken(c: Candidate, freeAt: FreeAt)
    ensures StillInTime(c, freeAt) <==> freeAt == None || freeAt.value - c.start <= 1_800_000
    ensures EndOf(c, freeAt)
         == (if freeAt != None && freeAt.value > c.start then freeAt.value else c.start) + ExpectedSeriesDurationMs(c.format)
  {
  }

  // ----- the forecast

  /** The forecast of a series, as the three passes give it. */
  function ForecastOf(c: Candidate, cs: seq<Candidate>, now: int, autopilotEnabled: bool, running: Option<Uuid>): Forecast {
    var queue := Queue(cs, now, running);
    LabelOf(c, now, RunningIds(cs, running), ArenaForecast.Ids(queue),
            ArenaForecast.Ids(if autopilotEnabled then Greedy(queue, SlotFreeAt(cs, now, running)) else []))
  }

  /** The series the launcher takes one after the other, each when the one before is expected to end. */
  function TakenInTurn(cs: seq<Candidate>, now: int, running: Option<Uuid>): seq<Candidate> {
    Replay(Waiting(cs, RunningIds(cs, running)), SlotFreeAt(cs, now, running), now)
  }

  lemma IdMeansMember(cs: seq<Candidate>, part: seq<Candidate>, c: Candidate)
    requires DistinctIds(cs) && c in cs && forall d | d in part :: d in cs
    ensures c.seriesId in ArenaForecast.Ids(part) <==> c in part
  {
    if c.seriesId in ArenaForecast.Ids(part) {
      var d :| d in part && d.seriesId == c.seriesId;
      SameIdSameSeries(cs, c, d);
    }
  }

  lemma RunningMeans(cs: seq<Candidate>, running: Option<Uuid>, c: Candidate)
    requires DistinctIds(cs) && c in cs
    ensures c.seriesId in RunningIds(cs, running) <==> Holds(c, running)
  {
    if c.seriesId in RunningIds(cs, running) {
      var d :| d in cs && HoldsSlot(d, running) && d.seriesId == c.seriesId;
      SameIdSameSeries(cs, c, d);
    }
  }

  /** What each forecast means for a series, and that a series that could launch is expected exactly if the launcher gets to it. */
  lemma ForecastMeans(c: Candidate, cs: seq<Candidate>, now: int, autopilotEnabled: bool, running: Option<Uuid>)
    requires DistinctIds(cs) && c in cs
    ensures var told, runs := ForecastOf(c, cs, now, autopilotEnabled, running), Holds(c, running);
            && (told == Running <==> runs)
            && (told == Expected <==> !runs && autopilotEnabled && c in TakenInTurn(cs, now, running))
            && (told == Unlikely <==>
                  !runs && MayLaunch(c, now) && !(autopilotEnabled && c in TakenInTurn(cs, now, running)))
            && (told == Ended <==> !runs && c.hasArena)
            && (told == Unknown <==>
                  && !runs && !c.hasArena && !c.selectable
                  && c.status == Active && !c.skipRequested && now - c.start <= 1_800_000)
  {
    SetsMean(c, cs, now, running);
    GreedyIds(Queue(cs, now, running), SlotFreeAt(cs, now, running));
  }

  lemma SetsMean(c: Candidate, cs: seq<Candidate>, now: int, running: Option<Uuid>)
    requires DistinctIds(cs) && c in cs
    ensures var queue := Queue(cs, now, running);
            && (c.seriesId in RunningIds(cs, running) <==> Holds(c, running))
            && (c.seriesId in ArenaForecast.Ids(queue) <==> !Holds(c, running) && MayLaunch(c, now))
            && (c.seriesId in ArenaForecast.Ids(Greedy(queue, SlotFreeAt(cs, now, running)))
                <==> c in TakenInTurn(cs, now, running))
  {
    var queue, freeAt := Queue(cs, now, running), SlotFreeAt(cs, now, running);
    QueueMeans(cs, now, running);
    GreedyIds(queue, freeAt);
    ForecastIsTheLauncherReplayed(cs, now, running);
    RunningMeans(cs, running, c);
    IdMeansMember(cs, queue, c);
    IdMeansMember(cs, Greedy(queue, freeAt), c);
    assert IsLaunchCandidate(c, now) == MayLaunch(c, now);
  }
}

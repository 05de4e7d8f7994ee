/** The autopilot's launch rule (cs2/next-series.ts). Times are epoch milliseconds. */
module NextSeries {
  import opened Cs2Types
  import SeriesLifecycle

  const LATE_START_WINDOW_MS := 30 * 60 * 1000

  datatype SeriesStatus = Active | Decided | Invalid | Skipped

  datatype Candidate = Candidate(
    seriesId: Uuid, start: int, priority: bool, followerCount: int, selectable: bool,
    status: SeriesStatus, hasArena: bool, skipRequested: bool, format: nat)

  datatype Choice =
    | Launch(series: Candidate)
    | Wait(series: Candidate, at: int)
    | NoSeries

  predicate IsLaunchCandidate(c: Candidate, now: int) {
    c.selectable && c.status.Active? && !c.hasArena && !c.skipRequested && c.start >= now - LATE_START_WINDOW_MS
  }

  function Rank(b: bool): int { if b then 1 else 0 }

  /** Negative when `a` goes first: earlier start, then priority, then more followers. */
  function CompareLaunchOrder(a: Candidate, b: Candidate): int {
    if a.start != b.start then a.start - b.start
    else if a.priority != b.priority then Rank(b.priority) - Rank(a.priority)
    else b.followerCount - a.followerCount
  }

  function Eligible(cs: seq<Candidate>, now: int): seq<Candidate> {
    if cs == [] then []
    else (if IsLaunchCandidate(cs[0], now) then [cs[0]] else []) + Eligible(cs[1..], now)
  }

  function Earliest(cs: seq<Candidate>): int
    requires cs != []
  {
    if |cs| == 1 then cs[0].start
    else var e := Earliest(cs[1..]); if cs[0].start < e then cs[0].start else e
  }

  function StartingAt(cs: seq<Candidate>, start: int): seq<Candidate> {
    if cs == [] then []
    else (if cs[0].start == start then [cs[0]] else []) + StartingAt(cs[1..], start)
  }

  /** The order among tied series: the launch order, then the drawn tie-break. */
  predicate GoesFirst(a: Candidate, b: Candidate, tiebreak: Uuid -> int) {
    CompareLaunchOrder(a, b) < 0 || (CompareLaunchOrder(a, b) == 0 && tiebreak(a.seriesId) < tiebreak(b.seriesId))
  }

  /** The head of the stably sorted list: the first element no other one goes before. */
  function First(cs: seq<Candidate>, tiebreak: Uuid -> int): Candidate
    requires cs != []
  {
    if |cs| == 1 then cs[0]
    else var rest := First(cs[1..], tiebreak); if GoesFirst(rest, cs[0], tiebreak) then rest else cs[0]
  }

  function SelectNextSeries(cs: seq<Candidate>, now: int, tiebreak: Uuid -> int): Choice {
    var eligible := Eligible(cs, now);
    if eligible == [] then NoSeries
    else
      EarliestIsReached(eligible);
      var earliest := Earliest(eligible);
      var winner := First(StartingAt(eligible, earliest), tiebreak);
      var launchAt := earliest - SeriesLifecycle.LOBBY_OPEN_BEFORE_START_MS;
      if now >= launchAt then Launch(winner) else Wait(winner, launchAt)
  }

  lemma {:induction false} EligibleMeans(cs: seq<Candidate>, now: int)
    ensures forall c :: c in Eligible(cs, now) <==> c in cs && IsLaunchCandidate(c, now)
  {
    if cs != [] { EligibleMeans(cs[1..], now); }
  }

  lemma {:induction false} EarliestMeans(cs: seq<Candidate>)
    requires cs != []
    ensures (exists c :: c in cs && c.start == Earliest(cs)) && forall c | c in cs :: Earliest(cs) <= c.start
  {
    if |cs| > 1 { EarliestMeans(cs[1..]); }
    assert cs[0] in cs;
    assert forall c :: c in cs <==> c == cs[0] || c in cs[1..];
  }

  lemma {:induction false} StartingAtMeans(cs: seq<Candidate>, start: int)
    ensures forall c :: c in StartingAt(cs, start) <==> c in cs && c.start == start
  {
    if cs != [] { StartingAtMeans(cs[1..], start); }
  }

  lemma EarliestIsReached(cs: seq<Candidate>)
    requires cs != []
    ensures StartingAt(cs, Earliest(cs)) != []
  {
    EarliestMeans(cs);
    StartingAtMeans(cs, Earliest(cs));
    var c :| c in cs && c.start == Earliest(cs);
    assert c in StartingAt(cs, Earliest(cs));
  }

  lemma {:induction false} FirstMeans(cs: seq<Candidate>, tiebreak: Uuid -> int)
    requires cs != []
    ensures First(cs, tiebreak) in cs
    ensures forall c | c in cs :: !GoesFirst(c, First(cs, tiebreak), tiebreak)
  {
    assert forall c :: c in cs <==> c == cs[0] || c in cs[1..];
    if |cs| > 1 { FirstMeans(cs[1..], tiebreak); }
  }

  /**
   * Whatever the random draws, the launcher takes an eligible series that none of the others precedes,
   * takes one whenever there is one, and launches it exactly from ten minutes before its start on.
   */
  lemma LauncherTakesTheFirst(cs: seq<Candidate>, now: int, tiebreak: Uuid -> int)
    ensures var choice := SelectNextSeries(cs, now, tiebreak);
            && (choice.NoSeries? <==> forall c | c in cs :: !IsLaunchCandidate(c, now))
            && (!choice.NoSeries? ==>
                  && choice.series in cs && IsLaunchCandidate(choice.series, now)
                  && (forall c | c in cs && IsLaunchCandidate(c, now) :: !GoesFirst(c, choice.series, tiebreak))
                  && (choice.Launch? <==> now >= choice.series.start - SeriesLifecycle.LOBBY_OPEN_BEFORE_START_MS))
  {
    var eligible := Eligible(cs, now);
    EligibleMeans(cs, now);
    if eligible != [] {
      assert eligible[0] in eligible;
      EarliestIsReached(eligible);
      EarliestMeans(eligible);
      StartingAtMeans(eligible, Earliest(eligible));
      FirstMeans(StartingAt(eligible, Earliest(eligible)), tiebreak);
    } else {
      assert forall c | c in cs :: c !in eligible;
    }
  }
}

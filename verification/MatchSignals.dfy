/** Raw soccer feed messages to change-only match signals (ingestion/match-signal.ts, normalize.ts, incident-tracker.ts). */
module MatchSignals {
  import opened Cs2Types
  import opened Planner
  import opened SoccerSettlement

  /** The feed's action words, as far as they are told apart. */
  datatype FeedAction = Amend | Discarded | Target(kind: EventKind) | OtherAction

  datatype Raw = Raw(
    action: FeedAction, id: Option<nat>, status: Option<int>, confirmed: bool,
    seconds: Option<int>, running: bool,
    participant: Option<int>, participant1IsHome: Option<bool>, possession: Option<int>)

  datatype Signal =
    | ClockSignal(period: Period, minute: int, running: bool)
    | PossessionSignal(team: Team)
    | EventSignal(event: LiveEvent)

  /** `floor` is the least minute the current period may still report, once one is known. */
  datatype Producer = Producer(
    lastPeriod: Option<Period>, lastMinute: int, lastRunning: bool, lastPossession: Option<Team>,
    floor: Option<int>, emitted: set<nat>)

  const FRESH := Producer(None, 0, false, None, None, {})

  predicate IsClocked(status: int) { status in {2, 4, 7, 9} }

  function PeriodForStatus(status: int): Option<Period> {
    if status == 1 then Some(Pre)
    else if status == 2 then Some(FirstHalf)
    else if status in {3, 6, 8, 11, 14} then Some(Halftime)
    else if status in {4, 7, 9, 12} then Some(SecondHalf)
    else if status in {5, 10, 13, 15, 16, 17, 18} then Some(FullTime)
    else None
  }

  /** Whole minutes of elapsed match time, in a clocked phase only. */
  function DeriveMinute(raw: Raw): Option<int> {
    if raw.status.None? || raw.seconds.None? || !IsClocked(raw.status.value) then None
    else Some(raw.seconds.value / 60)
  }

  function ParticipantToSide(participant: Option<int>, participant1IsHome: Option<bool>): Option<Team> {
    var isHome := participant1IsHome != Some(false);
    if participant == Some(1) then Some(if isHome then Home else Away)
    else if participant == Some(2) then Some(if isHome then Away else Home)
    else None
  }

  /** Amendments and retractions carry stale clocks: nothing is derived from them. */
  function PeriodOf(raw: Raw): Option<Period> {
    if raw.action.Amend? || raw.action.Discarded? || raw.status.None? then None else PeriodForStatus(raw.status.value)
  }

  function PossessionOf(raw: Raw): Option<Team> {
    if raw.action.Amend? || raw.action.Discarded? then None
    else ParticipantToSide(raw.possession, raw.participant1IsHome)
  }

  function Max(a: int, b: int): int { if a >= b then a else b }

  function FloorBefore(s: Producer, period: Period): Option<int> {
    if s.lastPeriod == Some(period) then s.floor else None
  }

  /** The minute reported for a message in `period`. */
  function MinuteOf(s: Producer, raw: Raw, period: Period): int {
    var floor, derived := FloorBefore(s, period), DeriveMinute(raw);
    if derived.None? then s.lastMinute
    else if floor.Some? then Max(derived.value, floor.value)
    else derived.value
  }

  function FloorAfter(s: Producer, raw: Raw, period: Period): Option<int> {
    if DeriveMinute(raw).None? then FloorBefore(s, period) else Some(MinuteOf(s, raw, period))
  }

  predicate ClockChanges(s: Producer, raw: Raw, period: Period) {
    s.lastPeriod != Some(period) || MinuteOf(s, raw, period) != s.lastMinute || raw.running != s.lastRunning
  }

  /** A confirmed target incident that was not emitted before. */
  predicate IsNewIncident(s: Producer, raw: Raw) {
    raw.action.Target? && raw.confirmed && (raw.id.None? || raw.id.value !in s.emitted)
  }

  /** None for anything but a target action in a clocked phase. */
  function NormalizeEvent(raw: Raw): Option<LiveEvent> {
    if !raw.action.Target? || DeriveMinute(raw).None? then None
    else
      var side := ParticipantToSide(raw.participant, raw.participant1IsHome);
      var phase := PeriodForStatus(raw.status.value);
      Some(LiveEvent(raw.action.kind, if side.Some? then side.value else AnyTeam, DeriveMinute(raw).value, raw.confirmed,
                     if phase.Some? then phase.value else Pre))
  }

  function EventOf(s: Producer, raw: Raw): Option<LiveEvent> {
    if IsNewIncident(s, raw) then NormalizeEvent(raw) else None
  }

  function Next(s: Producer, raw: Raw): Producer {
    var period, possession := PeriodOf(raw), PossessionOf(raw);
    Producer(
      if period.Some? then period else s.lastPeriod,
      if period.Some? then MinuteOf(s, raw, period.value) else s.lastMinute,
      if period.Some? then raw.running else s.lastRunning,
      if possession.Some? then possession else s.lastPossession,
      if period.Some? then FloorAfter(s, raw, period.value) else s.floor,
      if IsNewIncident(s, raw) && raw.id.Some? then s.emitted + {raw.id.value} else s.emitted)
  }

  function ClockPart(s: Producer, raw: Raw): seq<Signal> {
    var period := PeriodOf(raw);
    if period.Some? && ClockChanges(s, raw, period.value)
    then [ClockSignal(period.value, MinuteOf(s, raw, period.value), raw.running)] else []
  }

  function PossessionPart(s: Producer, raw: Raw): seq<Signal> {
    var possession := PossessionOf(raw);
    if possession.Some? && possession != s.lastPossession then [PossessionSignal(possession.value)] else []
  }

  function EventPart(s: Producer, raw: Raw): seq<Signal> {
    var event := EventOf(s, raw);
    if event.Some? then [EventSignal(event.value)] else []
  }

  function Signals(s: Producer, raw: Raw): seq<Signal> {
    ClockPart(s, raw) + PossessionPart(s, raw) + EventPart(s, raw)
  }

  class MatchSignalProducer {
    var lastPeriod: Option<Period>
    var lastMinute: int
    var lastRunning: bool
    var lastPossession: Option<Team>
    var periodMinuteFloor: Option<int>
    var emittedIds: set<nat>

    function State(): Producer
      reads this
    {
      Producer(lastPeriod, lastMinute, lastRunning, lastPossession, periodMinuteFloor, emittedIds)
    }

    constructor ()
      ensures State() == FRESH
    {
      lastPeriod, lastMinute, lastRunning, lastPossession := None, 0, false, None;
      periodMinuteFloor, emittedIds := None, {};
    }

    method Process(raw: Raw) returns (signals: seq<Signal>)
      modifies this
      ensures State() == Next(old(State()), raw)
      ensures signals == Signals(old(State()), raw)
    {
      var clock := ProcessClock(raw);
      var possession := ProcessPossession(raw);
      var event := ProcessIncident(raw);
      signals := clock + possession + if event.Some? then [EventSignal(event.value)] else [];
    }

    method ProcessClock(raw: Raw) returns (signals: seq<Signal>)
      modifies this`lastPeriod, this`lastMinute, this`lastRunning, this`periodMinuteFloor
      ensures var s := old(State());
              State() == Next(s, raw).(lastPossession := s.lastPossession, emitted := s.emitted)
      ensures signals == ClockPart(old(State()), raw)
    {
      signals := [];
      var isAmendOrDiscard := raw.action.Amend? || raw.action.Discarded?;
      var period := if isAmendOrDiscard || raw.status.None? then None else PeriodForStatus(raw.status.value);
      if period.Some? {
        if period != lastPeriod { periodMinuteFloor := None; }
        var derived := DeriveMinute(raw);
        var matchMinute: int;
        if derived.Some? {
          matchMinute := if periodMinuteFloor.Some? then Max(derived.value, periodMinuteFloor.value) else derived.value;
          periodMinuteFloor := Some(matchMinute);
        } else {
          matchMinute := lastMinute;
        }
        if period != lastPeriod || matchMinute != lastMinute || raw.running != lastRunning {
          lastPeriod, lastMinute, lastRunning := period, matchMinute, raw.running;
          signals := [ClockSignal(period.value, matchMinute, raw.running)];
        }
      }
    }

    method ProcessPossession(raw: Raw) returns (signals: seq<Signal>)
      modifies this`lastPossession
      ensures var possession := PossessionOf(raw);
              lastPossession == if possession.Some? then possession else old(lastPossession)
      ensures signals == PossessionPart(old(State()), raw)
    {
      signals := [];
      var isAmendOrDiscard := raw.action.Amend? || raw.action.Discarded?;
      var possession := if isAmendOrDiscard then None else ParticipantToSide(raw.possession, raw.participant1IsHome);
      if possession.Some? && possession != lastPossession {
        lastPossession := possession;
        signals := [PossessionSignal(possession.value)];
      }
    }

    method ProcessIncident(raw: Raw) returns (event: Option<LiveEvent>)
      modifies this`emittedIds
      ensures var s := old(State());
              emittedIds == if IsNewIncident(s, raw) && raw.id.Some? then s.emitted + {raw.id.value} else s.emitted
      ensures event == EventOf(old(State()), raw)
    {
      if raw.action.Discarded? || !raw.confirmed || !raw.action.Target? { return None; }
      if raw.id.Some? {
        if raw.id.value in emittedIds { return None; }
        emittedIds := emittedIds + {raw.id.value};
      }
      event := NormalizeEvent(raw);
    }
  }

  // ----- what the signals promise

  /** A known floor is the minute last reported. */
  predicate FloorIsLast(s: Producer) { s.floor.Some? ==> s.floor.value == s.lastMinute }

  function Run(s: Producer, raws: seq<Raw>): Producer {
    if raws == [] then s else Next(Run(s, raws[..|raws| - 1]), raws[|raws| - 1])
  }

  lemma {:induction false} FloorStaysLast(raws: seq<Raw>)
    ensures FloorIsLast(Run(FRESH, raws))
  {
    if raws != [] { FloorStaysLast(raws[..|raws| - 1]); }
  }

  /** Since the feed last came to period `p`, and it is still there, some message derived a minute. */
  ghost predicate ShownSince(raws: seq<Raw>, p: Period) {
    exists i :: 0 <= i < |raws| && PeriodOf(raws[i]) == Some(p) && DeriveMinute(raws[i]).Some? && StaysIn(raws, i, p)
  }

  ghost predicate StaysIn(raws: seq<Raw>, i: nat, p: Period) {
    forall j | i < j < |raws| :: PeriodOf(raws[j]).None? || PeriodOf(raws[j]) == Some(p)
  }

  lemma ShownOneMore(raws: seq<Raw>, p: Period)
    requires raws != []
    ensures var last := raws[|raws| - 1];
            ShownSince(raws, p)
            <==> || (PeriodOf(last) == Some(p) && DeriveMinute(last).Some?)
                 || ((PeriodOf(last).None? || PeriodOf(last) == Some(p)) && ShownSince(raws[..|raws| - 1], p))
  {
    var n := |raws| - 1;
    if ShownSince(raws[..n], p) && (PeriodOf(raws[n]).None? || PeriodOf(raws[n]) == Some(p)) {
      var i :| 0 <= i < n && PeriodOf(raws[..n][i]) == Some(p) && DeriveMinute(raws[..n][i]).Some? && StaysIn(raws[..n], i, p);
      forall j | i < j < |raws| ensures PeriodOf(raws[j]).None? || PeriodOf(raws[j]) == Some(p) {
        if j < n { assert raws[..n][j] == raws[j]; }
      }
      assert StaysIn(raws, i, p);
    }
    if ShownSince(raws, p) {
      var i :| 0 <= i < |raws| && PeriodOf(raws[i]) == Some(p) && DeriveMinute(raws[i]).Some? && StaysIn(raws, i, p);
      if i < n {
        assert raws[..n][i] == raws[i];
        forall j | i < j < n ensures PeriodOf(raws[..n][j]).None? || PeriodOf(raws[..n][j]) == Some(p) {
          assert raws[..n][j] == raws[j];
        }
        assert StaysIn(raws[..n], i, p);
      }
    }
  }

  /** The producer's floor is known exactly if its period has shown a minute. */
  lemma {:induction false} FloorMeansShown(raws: seq<Raw>, p: Period)
    ensures var s := Run(FRESH, raws);
            ShownSince(raws, p) <==> s.lastPeriod == Some(p) && s.floor.Some?
  {
    if raws != [] {
      ShownOneMore(raws, p);
      FloorMeansShown(raws[..|raws| - 1], p);
    }
  }

  /**
   * Within a period the reported minute falls back exactly when no message since the period came in has derived a minute
   * and the next one derives less than was reported last.
   */
  lemma {:induction false} MinuteFallsBackExactlyWhen(raws: seq<Raw>, raw: Raw, period: Period)
    requires PeriodOf(raw) == Some(period) && Run(FRESH, raws).lastPeriod == Some(period)
    ensures var s := Run(FRESH, raws);
            MinuteOf(s, raw, period) < s.lastMinute
            <==> !ShownSince(raws, period) && DeriveMinute(raw).Some? && DeriveMinute(raw).value < s.lastMinute
  {
    FloorStaysLast(raws);
    FloorMeansShown(raws, period);
  }

  function ClockMessage(status: int, seconds: Option<int>): Raw {
    Raw(OtherAction, None, Some(status), false, seconds, true, None, None, None)
  }

  /** The code does not meet its promise at a half's first message without a clock: 47, still 47, then 45. */
  lemma TheFrozenMinuteFallsBack()
    ensures var before := [ClockMessage(2, Some(2820)), ClockMessage(4, None)];
            var s := Run(FRESH, before);
            s.lastPeriod == Some(SecondHalf) && s.lastMinute == 47 && MinuteOf(s, ClockMessage(4, Some(2700)), SecondHalf) == 45
  {
    var before := [ClockMessage(2, Some(2820)), ClockMessage(4, None)];
    assert before[..1] == [ClockMessage(2, Some(2820))];
    assert before[..1][..0] == [];
    var s := Next(FRESH, ClockMessage(2, Some(2820)));
    assert s.lastMinute == 47 && s.lastPeriod == Some(FirstHalf);
    assert Run(FRESH, before[..1]) == s;
  }

  /** Once a period has shown a minute, its minutes never fall back while it lasts. */
  lemma {:induction false} MinutesNeverFallBack(s: Producer, raws: seq<Raw>)
    requires s.floor.Some? && FloorIsLast(s)
    requires forall i | 0 <= i < |raws| && PeriodOf(raws[i]).Some? :: PeriodOf(raws[i]) == s.lastPeriod
    ensures var end := Run(s, raws);
            end.floor.Some? && FloorIsLast(end) && end.lastPeriod == s.lastPeriod && s.lastMinute <= end.lastMinute
  {
    if raws != [] { MinutesNeverFallBack(s, raws[..|raws| - 1]); }
  }

  /** A clock signal is sent exactly when what it says differs from what was said last, and then it is what was said last. */
  lemma SignalsAreChanges(s: Producer, raw: Raw)
    requires PeriodOf(raw).Some?
    ensures var next := Next(s, raw);
            ClockPart(s, raw) == if (next.lastPeriod, next.lastMinute, next.lastRunning) == (s.lastPeriod, s.lastMinute, s.lastRunning)
                                 then [] else [ClockSignal(PeriodOf(raw).value, next.lastMinute, next.lastRunning)]
  {
  }

  lemma {:induction false} EmittedOnlyGrows(s: Producer, raws: seq<Raw>)
    ensures s.emitted <= Run(s, raws).emitted
  {
    if raws != [] { EmittedOnlyGrows(s, raws[..|raws| - 1]); }
  }

  lemma {:induction false} RunInTwo(s: Producer, a: seq<Raw>, b: seq<Raw>)
    ensures Run(s, a + b) == Run(Run(s, a), b)
  {
    if b == [] {
      assert a + b == a;
    } else {
      RunInTwo(s, a, b[..|b| - 1]);
      assert (a + b)[..|a + b| - 1] == a + b[..|b| - 1];
    }
  }

  /** Two messages about the same incident never both give an event, whatever came between them. */
  lemma EachIncidentOnce(raws: seq<Raw>, i: nat, j: nat)
    requires i < j < |raws| && raws[i].id.Some? && raws[i].id == raws[j].id
    requires EventOf(Run(FRESH, raws[..i]), raws[i]).Some?
    ensures EventOf(Run(FRESH, raws[..j]), raws[j]).None?
  {
    assert raws[..i + 1][..i] == raws[..i];
    var after := Run(FRESH, raws[..i + 1]);
    assert raws[..j] == raws[..i + 1] + raws[i + 1..j];
    RunInTwo(FRESH, raws[..i + 1], raws[i + 1..j]);
    EmittedOnlyGrows(after, raws[i + 1..j]);
  }
}

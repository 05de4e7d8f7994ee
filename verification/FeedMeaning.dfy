/** What the soccer signals say, from the raw messages so far alone (ingestion/match-signal.ts, normalize.ts, score-snapshot.ts). */
module FeedMeaning {
  import opened Cs2Types
  import opened Planner
  import opened SoccerSettlement
  import opened MatchSignals

  // ----- one message

  /** The part of the match a message was sent in; a correction of an older message tells nothing. */
  function PhaseOf(raw: Raw): Option<Period> {
    if raw.action == Amend || raw.action == Discarded || raw.status == None then None
    else match raw.status.value
    case 1 => Some(Pre)
    case 2 => Some(FirstHalf)
    case 3 => Some(Halftime)
    case 4 => Some(SecondHalf)
    case 5 => Some(FullTime)
    case 6 => Some(Halftime)
    case 7 => Some(SecondHalf)
    case 8 => Some(Halftime)
    case 9 => Some(SecondHalf)
    case 10 => Some(FullTime)
    case 11 => Some(Halftime)
    case 12 => Some(SecondHalf)
    case 13 => Some(FullTime)
    case 14 => Some(Halftime)
    case 15 => Some(FullTime)
    case 16 => Some(FullTime)
    case 17 => Some(FullTime)
    case 18 => Some(FullTime)
    case _ => None
  }

  /** Whole minutes on the clock, while a half or an extra half is on. */
  function MinuteIn(raw: Raw): Option<int> {
    if raw.status != None && raw.seconds != None
       && (raw.status.value == 2 || raw.status.value == 4 || raw.status.value == 7 || raw.status.value == 9)
    then Some(raw.seconds.value / 60) else None
  }

  /** The first participant is at home unless the message says otherwise. */
  function SideOf(participant: Option<int>, participant1IsHome: Option<bool>): Option<Team> {
    if participant == Some(1) then Some(if participant1IsHome == Some(false) then Away else Home)
    else if participant == Some(2) then Some(if participant1IsHome == Some(false) then Home else Away)
    else None
  }

  lemma MessagesMean(raw: Raw)
    ensures PeriodOf(raw) == PhaseOf(raw) && DeriveMinute(raw) == MinuteIn(raw)
    ensures ParticipantToSide(raw.participant, raw.participant1IsHome) == SideOf(raw.participant, raw.participant1IsHome)
    ensures PossessionOf(raw) == if raw.action in {Amend, Discarded} then None else SideOf(raw.possession, raw.participant1IsHome)
  {
  }

  // ----- the minute

  /** Message `i` is of the stay in phase `p` that has lasted until now, and shows a minute. */
  predicate ShowsInStay(raws: seq<Raw>, i: int, p: Period) {
    && 0 <= i < |raws| && PhaseOf(raws[i]) == Some(p) && MinuteIn(raws[i]) != None
    && forall j | i < j < |raws| :: PhaseOf(raws[j]) in {None, Some(p)}
  }

  /** `m` is the greatest minute shown in this stay. */
  ghost predicate GreatestShown(raws: seq<Raw>, p: Period, m: int) {
    && (exists i :: ShowsInStay(raws, i, p) && MinuteIn(raws[i]).value == m)
    && (forall i | ShowsInStay(raws, i, p) :: MinuteIn(raws[i]).value <= m)
  }

  /** Where the producer stands: in phase `p` it tells the greatest minute of the stay, once one was shown. */
  ghost predicate TellsTheGreatest(s: Producer, raws: seq<Raw>) {
    && (forall i, p | ShowsInStay(raws, i, p) :: s.lastPeriod == Some(p) && s.floor != None)
    && (s.floor != None ==>
          && s.lastPeriod != None && s.floor == Some(s.lastMinute)
          && GreatestShown(raws, s.lastPeriod.value, s.lastMinute))
  }

  lemma StayGoesOn(raws: seq<Raw>, i: int, p: Period)
    requires raws != [] && i < |raws| - 1
    ensures ShowsInStay(raws, i, p)
            <==> ShowsInStay(raws[..|raws| - 1], i, p) && PhaseOf(raws[|raws| - 1]) in {None, Some(p)}
  {
    var shorter := raws[..|raws| - 1];
    if 0 <= i {
      assert shorter[i] == raws[i];
      assert forall j | i < j < |raws| - 1 :: shorter[j] == raws[j];
    }
  }

  lemma {:induction false} EveryFeedTellsTheGreatest(raws: seq<Raw>)
    ensures TellsTheGreatest(Run(FRESH, raws), raws)
  {
    if raws != [] {
      EveryFeedTellsTheGreatest(raws[..|raws| - 1]);
      NextTellsTheGreatest(Run(FRESH, raws[..|raws| - 1]), raws);
    }
  }

  lemma NextTellsTheGreatest(s: Producer, raws: seq<Raw>)
    requires raws != [] && TellsTheGreatest(s, raws[..|raws| - 1])
    ensures TellsTheGreatest(Next(s, raws[|raws| - 1]), raws)
  {
    var n := |raws| - 1;
    var next := Next(s, raws[n]);
    MessagesMean(raws[n]);
    forall i, p | ShowsInStay(raws, i, p) ensures next.lastPeriod == Some(p) && next.floor != None {
      if i < n { StayGoesOn(raws, i, p); }
    }
    if next.floor != None { GreatestGoesOn(s, raws, next.lastPeriod.value); }
  }

  lemma GreatestGoesOn(s: Producer, raws: seq<Raw>, p: Period)
    requires raws != [] && TellsTheGreatest(s, raws[..|raws| - 1])
    requires var next := Next(s, raws[|raws| - 1]); next.floor != None && next.lastPeriod == Some(p)
    ensures var next := Next(s, raws[|raws| - 1]); next.floor == Some(next.lastMinute) && GreatestShown(raws, p, next.lastMinute)
  {
    var n := |raws| - 1;
    MessagesMean(raws[n]);
    StillShown(s, raws, p);
    forall i | ShowsInStay(raws, i, p) ensures MinuteIn(raws[i]).value <= Next(s, raws[n]).lastMinute {
      if i < n { StayGoesOn(raws, i, p); }
    }
  }

  /** Somebody showed the minute that is told: this message, or the one that did before. */
  lemma StillShown(s: Producer, raws: seq<Raw>, p: Period)
    requires raws != [] && TellsTheGreatest(s, raws[..|raws| - 1])
    requires var next := Next(s, raws[|raws| - 1]); next.floor != None && next.lastPeriod == Some(p)
    ensures exists i :: ShowsInStay(raws, i, p) && MinuteIn(raws[i]).value == Next(s, raws[|raws| - 1]).lastMinute
  {
    var n := |raws| - 1;
    MessagesMean(raws[n]);
    if s.floor != None && s.lastPeriod == Some(p) {
      var i :| ShowsInStay(raws[..n], i, p) && MinuteIn(raws[..n][i]).value == s.lastMinute;
      StayGoesOn(raws, i, p);
    }
    assert MinuteIn(raws[n]) != None && PhaseOf(raws[n]) == Some(p) ==> ShowsInStay(raws, n, p);
  }

  lemma OneMore(raws: seq<Raw>, raw: Raw)
    ensures Run(FRESH, raws + [raw]) == Next(Run(FRESH, raws), raw)
  {
    assert (raws + [raw])[..|raws|] == raws;
  }

  /**
   * After any messages, a message of a phase tells the greatest minute shown in this stay of that phase, its own included;
   * while none was shown, the minute stays. It is passed on exactly if phase, minute or running clock are news.
   */
  lemma {:induction false} ClockMeans(raws: seq<Raw>, raw: Raw, p: Period)
    requires PhaseOf(raw) == Some(p)
    ensures var before, after, all := Run(FRESH, raws), Run(FRESH, raws + [raw]), raws + [raw];
            && after.lastPeriod == Some(p) && after.lastRunning == raw.running
            && (if exists i :: ShowsInStay(all, i, p) then GreatestShown(all, p, after.lastMinute)
                else after.lastMinute == before.lastMinute)
            && ClockPart(before, raw)
               == if before.lastPeriod == Some(p) && before.lastMinute == after.lastMinute && before.lastRunning == raw.running then []
                  else [ClockSignal(p, after.lastMinute, raw.running)]
  {
    MessagesMean(raw);
    OneMore(raws, raw);
    EveryFeedTellsTheGreatest(raws);
    EveryFeedTellsTheGreatest(raws + [raw]);
    if MinuteIn(raw) != None { assert ShowsInStay(raws + [raw], |raws|, p); }
    if Run(FRESH, raws + [raw]).floor != None {
      assert GreatestShown(raws + [raw], p, Run(FRESH, raws + [raw]).lastMinute);
    }
  }

  // ----- the possession

  /** The side that the last message to name one gave the ball to. */
  function LastPossession(raws: seq<Raw>): Option<Team> {
    if raws == [] then None
    else
      var last := raws[|raws| - 1];
      if last.action !in {Amend, Discarded} && SideOf(last.possession, last.participant1IsHome) != None
      then SideOf(last.possession, last.participant1IsHome) else LastPossession(raws[..|raws| - 1])
  }

  /** Who has the ball is passed on exactly if a message names somebody else than the last one that named anybody. */
  lemma {:induction false} PossessionMeans(raws: seq<Raw>, raw: Raw)
    ensures Run(FRESH, raws).lastPossession == LastPossession(raws)
    ensures var now := LastPossession(raws + [raw]);
            PossessionPart(Run(FRESH, raws), raw)
            == if now == LastPossession(raws) then [] else [PossessionSignal(now.value)]
  {
    MessagesMean(raw);
    assert (raws + [raw])[..|raws|] == raws;
    if raws != [] { PossessionMeans(raws[..|raws| - 1], raws[|raws| - 1]); MessagesMean(raws[|raws| - 1]); }
  }

  // ----- the events

  predicate Confirms(raw: Raw, id: nat) { raw.id == Some(id) && raw.action.Target? && raw.confirmed }

  ghost predicate ConfirmedBefore(raws: seq<Raw>, id: nat) { exists i :: 0 <= i < |raws| && Confirms(raws[i], id) }

  lemma {:induction false} EmittedMeans(raws: seq<Raw>, id: nat)
    ensures id in Run(FRESH, raws).emitted <==> ConfirmedBefore(raws, id)
  {
    if raws != [] {
      var n := |raws| - 1;
      EmittedMeans(raws[..n], id);
      if i :| 0 <= i < n && Confirms(raws[..n][i], id) { assert Confirms(raws[i], id); }
      if i :| 0 <= i < |raws| && Confirms(raws[i], id) { assert i < n ==> Confirms(raws[..n][i], id); }
    }
  }

  /**
   * A message gives an event exactly if it is the first to confirm its incident, is of a kind that is asked about, and was
   * sent while a clock runs; the event says what the message says.
   */
  lemma EventMeans(raws: seq<Raw>, raw: Raw)
    ensures EventOf(Run(FRESH, raws), raw)
         == if raw.action.Target? && raw.confirmed && MinuteIn(raw) != None
               && (raw.id == None || !ConfirmedBefore(raws, raw.id.value))
            then var side := SideOf(raw.participant, raw.participant1IsHome);
                 Some(LiveEvent(raw.action.kind, if side == None then AnyTeam else side.value, MinuteIn(raw).value, true,
                                PhaseOf(raw).value))
            else None
  {
    MessagesMean(raw);
    if raw.id != None { EmittedMeans(raws, raw.id.value); }
  }
}

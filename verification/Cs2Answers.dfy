/** What the answers say, in the snapshots' own numbers (cs2/settle.ts), for one settlement and for every settled round. */
module Cs2Answers {
  import opened Cs2Types
  import opened Cs2Settle
  import opened RoundTracker
  import opened RoundEngine
  import opened RoundRuns
  import opened TrackedRuns

  /** Two distinct teams, and the same two before and after. */
  predicate SameTwo(before: GameSnapshot, after: GameSnapshot) {
    && before.first.teamId != before.second.teamId && after.first.teamId != after.second.teamId
    && {before.first.teamId, before.second.teamId} == {after.first.teamId, after.second.teamId}
  }

  /** `t` is the row of team `id` in the snapshot. */
  predicate IsRow(s: GameSnapshot, id: Uuid, t: TeamStats) { (t == s.first || t == s.second) && t.teamId == id }

  function Says(yes: bool): Settlement { Decided(if yes then Yes else No) }

  /** `count` is that of the first entry for the weapon, or zero where there is none. */
  ghost predicate WeaponCount(kills: seq<WeaponKills>, weapon: string, count: int) {
    || (count == 0 && forall i | 0 <= i < |kills| :: kills[i].weapon != weapon)
    || (exists i :: 0 <= i < |kills| && kills[i] == WeaponKills(weapon, count) && forall j | 0 <= j < i :: kills[j].weapon != weapon)
  }

  /** The player had `kills` in the last entry for their id. */
  ghost predicate Had(players: seq<PlayerKills>, id: string, kills: int) {
    exists i :: 0 <= i < |players| && players[i] == PlayerKills(id, kills) && forall j | i < j < |players| :: players[j].id != id
  }

  ghost predicate Known(players: seq<PlayerKills>, id: string) { exists i :: 0 <= i < |players| && players[i].id == id }

  /** Player `i` of `after` was listed before and gained `gain` kills since. */
  ghost predicate Gained(before: seq<PlayerKills>, after: seq<PlayerKills>, i: int, gain: int) {
    0 <= i < |after| && Had(before, after[i].id, after[i].kills - gain)
  }

  /** The places of the players of `after` who were listed before. */
  ghost function Stayed(before: seq<PlayerKills>, after: seq<PlayerKills>): set<int> {
    set i | 0 <= i < |after| && Known(before, after[i].id)
  }

  // ----- the counts behind the answers

  lemma {:induction false} WeaponKillCountIs(kills: seq<WeaponKills>, weapon: string)
    ensures forall count :: WeaponCount(kills, weapon, count) <==> WeaponKillCount(kills, weapon) == count
  {
    if kills != [] {
      WeaponKillCountIs(kills[1..], weapon);
      if kills[0].weapon != weapon {
        forall count ensures WeaponCount(kills, weapon, count) <==> WeaponCount(kills[1..], weapon, count) {
          WeaponCountOfRest(kills, weapon, count);
        }
      } else {
        assert kills[0] == WeaponKills(weapon, kills[0].count);
      }
    }
  }

  lemma WeaponCountOfRest(kills: seq<WeaponKills>, weapon: string, count: int)
    requires kills != [] && kills[0].weapon != weapon
    ensures WeaponCount(kills, weapon, count) <==> WeaponCount(kills[1..], weapon, count)
  {
    var rest := kills[1..];
    assert forall i | 0 < i < |kills| :: kills[i] == rest[i - 1];
    if i :| 0 <= i < |kills| && kills[i] == WeaponKills(weapon, count) && forall j | 0 <= j < i :: kills[j].weapon != weapon {
      assert rest[i - 1] == WeaponKills(weapon, count);
    }
    if i :| 0 <= i < |rest| && rest[i] == WeaponKills(weapon, count) && forall j | 0 <= j < i :: rest[j].weapon != weapon {
      assert kills[i + 1] == WeaponKills(weapon, count);
      assert forall j | 0 < j < i + 1 :: kills[j] == rest[j - 1];
    }
  }

  lemma {:induction false} KillsByIdIs(players: seq<PlayerKills>, id: string)
    ensures id in KillsById(players) <==> Known(players, id)
    ensures forall kills :: Had(players, id, kills) <==> id in KillsById(players) && KillsById(players)[id] == kills
  {
    if players != [] {
      var n := |players| - 1;
      var shorter, last := players[..n], players[n];
      KillsByIdIs(shorter, id);
      if last.id == id {
        assert last == PlayerKills(id, last.kills);
        assert Had(players, id, last.kills);
      } else {
        forall kills ensures Had(players, id, kills) <==> Had(shorter, id, kills) { HadBefore(players, id, kills); }
        if i :| 0 <= i < |shorter| && shorter[i].id == id { assert players[i].id == id; }
        if i :| 0 <= i < |players| && players[i].id == id { assert shorter[i].id == id; }
      }
    }
  }

  lemma HadBefore(players: seq<PlayerKills>, id: string, kills: int)
    requires players != [] && players[|players| - 1].id != id
    ensures Had(players, id, kills) <==> Had(players[..|players| - 1], id, kills)
  {
    var shorter := players[..|players| - 1];
    if i :| 0 <= i < |players| && players[i] == PlayerKills(id, kills) && forall j | i < j < |players| :: players[j].id != id {
      assert shorter[i] == PlayerKills(id, kills);
    }
    if i :| 0 <= i < |shorter| && shorter[i] == PlayerKills(id, kills) && forall j | i < j < |shorter| :: shorter[j].id != id {
      assert players[i] == PlayerKills(id, kills);
      assert forall j | i < j < |shorter| :: players[j] == shorter[j];
    }
  }

  function DeltaOf(baseline: map<string, int>, p: PlayerKills): seq<int> {
    if p.id in baseline then [p.kills - baseline[p.id]] else []
  }

  lemma {:induction false} OneDeltaMore(baseline: map<string, int>, after: seq<PlayerKills>, p: PlayerKills)
    ensures KillDeltas(baseline, after + [p]) == KillDeltas(baseline, after) + DeltaOf(baseline, p)
  {
    if after == [] {
      assert after + [p] == [p];
    } else {
      assert (after + [p])[1..] == after[1..] + [p];
      OneDeltaMore(baseline, after[1..], p);
    }
  }

  /** The gains are those of the players who stayed. */
  lemma {:induction false} DeltasAre(before: seq<PlayerKills>, after: seq<PlayerKills>)
    ensures var deltas := KillDeltas(KillsById(before), after);
            && |deltas| == |Stayed(before, after)|
            && (forall d :: d in deltas <==> exists i :: Gained(before, after, i, d))
  {
    var deltas := KillDeltas(KillsById(before), after);
    if after == [] {
      assert Stayed(before, after) == {};
    } else {
      var shorter, last := after[..|after| - 1], after[|after| - 1];
      DeltasAre(before, shorter);
      assert after == shorter + [last];
      OneDeltaMore(KillsById(before), shorter, last);
      KillsByIdIs(before, last.id);
      StayedOneMore(before, shorter, last);
      forall d ensures d in deltas <==> exists i :: Gained(before, after, i, d) { GainedOneMore(before, shorter, last, d); }
    }
  }

  lemma GainedOneMore(before: seq<PlayerKills>, after: seq<PlayerKills>, p: PlayerKills, d: int)
    ensures (exists i :: Gained(before, after + [p], i, d))
            <==> Gained(before, after + [p], |after|, d) || exists i :: Gained(before, after, i, d)
  {
    if i :| Gained(before, after + [p], i, d) {
      if i < |after| { assert Gained(before, after, i, d); }
    }
    if i :| Gained(before, after, i, d) { assert Gained(before, after + [p], i, d); }
  }

  lemma StayedOneMore(before: seq<PlayerKills>, after: seq<PlayerKills>, p: PlayerKills)
    ensures |Stayed(before, after + [p])| == |Stayed(before, after)| + if Known(before, p.id) then 1 else 0
  {
    assert Stayed(before, after + [p]) == Stayed(before, after) + if Known(before, p.id) then {|after|} else {};
  }

  lemma {:induction false} MaxReaches(xs: seq<int>, y: int)
    requires xs != []
    ensures MaxOf(xs) >= y <==> exists x :: x in xs && x >= y
  {
    assert forall x :: x in xs <==> x == xs[0] || x in xs[1..];
    if |xs| > 1 {
      MaxReaches(xs[1..], y);
      if x :| x in xs && x >= y { assert x == xs[0] || x in xs[1..]; }
      if x :| x in xs[1..] && x >= y { assert x in xs; }
    }
    if xs[0] >= y { assert xs[0] in xs;
    }
  }

  // ----- one settlement

  /** Exactly the questions that cannot be answered, with the first reason that applies. */
  lemma InvalidExactlyWhen(c: Condition, before: GameSnapshot, after: GameSnapshot)
    ensures var targeted := c.topic in {RoundWinner, PistolRound, TeamAce, Multikill, SurvivorsTeam};
            var incomplete := || (targeted && c.targetTeamId == None)
                              || (c.topic in {Multikill, SurvivorsTeam, SurvivorsRound} && c.y == None)
                              || (c.topic == WeaponKill && c.weapon == None);
            var answer := ResolveCs2Settlement(c, before, after);
            && (answer == Invalid(TeamIdentityMismatch) <==> !SameTwo(before, after))
            && (answer == Invalid(InvalidCondition) <==> SameTwo(before, after) && incomplete)
            && (answer == Invalid(UnknownTeamId) <==>
                  && SameTwo(before, after) && !incomplete && targeted
                  && c.targetTeamId.value !in {before.first.teamId, before.second.teamId})
  {
  }

  lemma TargetedAt(c: Condition, before: GameSnapshot, after: GameSnapshot, t: Uuid, b: TeamStats, a: TeamStats)
    requires c.topic in {RoundWinner, PistolRound, TeamAce} || (c.topic in {Multikill, SurvivorsTeam} && c.y.Some?)
    requires c.targetTeamId == Some(t) && SameTwo(before, after) && IsRow(before, t, b) && IsRow(after, t, a)
    ensures ResolveCs2Settlement(c, before, after) == ResolveTargeted(c, b, a)
  {
  }

  /** "Does T win" is a yes exactly if T has more rounds after than before. */
  lemma WinnerMeans(c: Condition, before: GameSnapshot, after: GameSnapshot, t: Uuid, b: TeamStats, a: TeamStats)
    requires c.topic in {RoundWinner, PistolRound} && c.targetTeamId == Some(t)
    requires SameTwo(before, after) && IsRow(before, t, b) && IsRow(after, t, a)
    ensures ResolveCs2Settlement(c, before, after) == Says(a.score > b.score)
  {
  }

  /** An ace: five players listed before and after, each with one kill more. */
  lemma AceMeans(c: Condition, before: GameSnapshot, after: GameSnapshot, t: Uuid, b: TeamStats, a: TeamStats)
    requires c.topic == TeamAce && c.targetTeamId == Some(t)
    requires SameTwo(before, after) && IsRow(before, t, b) && IsRow(after, t, a)
    ensures ResolveCs2Settlement(c, before, after)
            == Says(|Stayed(b.players, a.players)| == 5
                    && forall i | i in Stayed(b.players, a.players) :: Gained(b.players, a.players, i, 1))
  {
    TargetedAt(c, before, after, t, b, a);
    AllOnes(b.players, a.players);
  }

  lemma AllOnes(before: seq<PlayerKills>, after: seq<PlayerKills>)
    ensures var deltas := KillDeltas(KillsById(before), after);
            && |deltas| == |Stayed(before, after)|
            && ((forall i | 0 <= i < |deltas| :: deltas[i] == 1)
                <==> forall i | i in Stayed(before, after) :: Gained(before, after, i, 1))
  {
    var deltas := KillDeltas(KillsById(before), after);
    DeltasAre(before, after);
    EachGainedOnce(before, after);
    OnesAreGains(before, after, deltas);
  }

  lemma OnesAreGains(before: seq<PlayerKills>, after: seq<PlayerKills>, deltas: seq<int>)
    requires forall d :: d in deltas <==> exists i :: Gained(before, after, i, d)
    ensures (forall i | 0 <= i < |deltas| :: deltas[i] == 1) <==> forall i, d | Gained(before, after, i, d) :: d == 1
  {
    if forall i, d | Gained(before, after, i, d) :: d == 1 {
      forall i | 0 <= i < |deltas| ensures deltas[i] == 1 { assert deltas[i] in deltas; }
    } else {
      var i, d :| Gained(before, after, i, d) && d != 1;
      assert d in deltas;
    }
  }

  lemma EachGainedOnce(before: seq<PlayerKills>, after: seq<PlayerKills>)
    ensures (forall i | i in Stayed(before, after) :: Gained(before, after, i, 1))
            <==> forall i, d | Gained(before, after, i, d) :: d == 1
  {
    forall i, d | Gained(before, after, i, d) ensures i in Stayed(before, after) { KillsByIdIs(before, after[i].id); }
    forall i | i in Stayed(before, after) ensures exists d :: Gained(before, after, i, d) { SomethingGained(before, after, i); }
    forall i, d, e | Gained(before, after, i, d) && Gained(before, after, i, e) ensures d == e {
      KillsByIdIs(before, after[i].id);
    }
    if forall i, d | Gained(before, after, i, d) :: d == 1 {
      forall i | i in Stayed(before, after) ensures Gained(before, after, i, 1) {
        var d :| Gained(before, after, i, d);
      }
    }
  }

  lemma SomethingGained(before: seq<PlayerKills>, after: seq<PlayerKills>, i: int)
    requires i in Stayed(before, after)
    ensures exists d :: Gained(before, after, i, d)
  {
    KillsByIdIs(before, after[i].id);
    assert Gained(before, after, i, after[i].kills - KillsById(before)[after[i].id]);
  }

  /** A multikill: somebody listed before gained that many; with nobody listed, only none can be asked for. */
  lemma MultikillMeans(c: Condition, before: GameSnapshot, after: GameSnapshot, t: Uuid, b: TeamStats, a: TeamStats, y: int)
    requires c.topic == Multikill && c.targetTeamId == Some(t) && c.y == Some(y)
    requires SameTwo(before, after) && IsRow(before, t, b) && IsRow(after, t, a)
    ensures ResolveCs2Settlement(c, before, after)
            == Says(if Stayed(b.players, a.players) == {} then 0 >= y
                    else exists i, gain :: Gained(b.players, a.players, i, gain) && gain >= y)
  {
    TargetedAt(c, before, after, t, b, a);
    DeltasAre(b.players, a.players);
    var deltas := KillDeltas(KillsById(b.players), a.players);
    if deltas != [] {
      MaxReaches(deltas, y);
      if i, gain :| Gained(b.players, a.players, i, gain) && gain >= y { assert gain in deltas; }
    }
  }

  /** More than `y` of five survived: fewer than 5 - y died. */
  lemma TeamSurvivorsMean(c: Condition, before: GameSnapshot, after: GameSnapshot, t: Uuid, b: TeamStats, a: TeamStats, y: int)
    requires c.topic == SurvivorsTeam && c.targetTeamId == Some(t) && c.y == Some(y)
    requires SameTwo(before, after) && IsRow(before, t, b) && IsRow(after, t, a)
    ensures ResolveCs2Settlement(c, before, after) == Says(a.deaths < b.deaths + 5 - y)
  {
  }

  /** More than `y` of ten survived, both teams taken together. */
  lemma RoundSurvivorsMean(c: Condition, before: GameSnapshot, after: GameSnapshot, y: int)
    requires c.topic == SurvivorsRound && c.y == Some(y) && SameTwo(before, after)
    ensures ResolveCs2Settlement(c, before, after)
            == Says(after.first.deaths + after.second.deaths < before.first.deaths + before.second.deaths + 10 - y)
  {
  }

  /** Somebody killed with the weapon: the two teams' counts together went up. */
  lemma WeaponKillMeans(
    c: Condition, before: GameSnapshot, after: GameSnapshot, weapon: string, b1: int, b2: int, a1: int, a2: int)
    requires c.topic == WeaponKill && c.weapon == Some(weapon) && SameTwo(before, after)
    requires WeaponCount(before.first.weaponKills, weapon, b1) && WeaponCount(before.second.weaponKills, weapon, b2)
    requires WeaponCount(after.first.weaponKills, weapon, a1) && WeaponCount(after.second.weaponKills, weapon, a2)
    ensures ResolveCs2Settlement(c, before, after) == Says(a1 + a2 > b1 + b2)
  {
    WeaponKillCountIs(before.first.weaponKills, weapon);
    WeaponKillCountIs(before.second.weaponKills, weapon);
    WeaponKillCountIs(after.first.weaponKills, weapon);
    WeaponKillCountIs(after.second.weaponKills, weapon);
  }

  lemma OvertimeMeans(c: Condition, before: GameSnapshot, after: GameSnapshot)
    requires c.topic == OtScore && SameTwo(before, after)
    ensures ResolveCs2Settlement(c, before, after) == Says(after.first.score == 12 && after.second.score == 12)
  {
  }

  // ----- every settled round

  /** A settled event carries the answer of its round's question over its own two snapshots, and the round keeps it. */
  ghost predicate CarriesItsAnswer(e: Engine, event: RoundEvent) {
    event.WasSettled? ==>
      && event.number in e.rounds
      && e.rounds[event.number].status == Settled && e.rounds[event.number].answer == Some(event.answer)
      && ResolveCs2Settlement(e.rounds[event.number].condition, event.before, event.after) == Decided(event.answer)
  }

  ghost predicate Truthful(e: Engine) { forall i | 0 <= i < |e.log| :: CarriesItsAnswer(e, e.log[i]) }

  /** Rounds are added and go on; their questions stay, resolved ones as a whole. What is new in the log is truthful. */
  ghost predicate GoesOn(e: Engine, later: Engine) {
    && e.log <= later.log
    && (forall n | n in e.rounds :: n in later.rounds && later.rounds[n].condition == e.rounds[n].condition)
    && (forall n | n in e.rounds && !Pending(e.rounds[n]) :: later.rounds[n] == e.rounds[n])
    && (forall i | |e.log| <= i < |later.log| :: CarriesItsAnswer(later, later.log[i]))
  }

  lemma GoesOnKeeps(e: Engine, later: Engine)
    requires Truthful(e) && GoesOn(e, later)
    ensures Truthful(later)
  {
    forall i | 0 <= i < |later.log| ensures CarriesItsAnswer(later, later.log[i]) {
      if i < |e.log| { assert later.log[i] == e.log[i] && CarriesItsAnswer(e, e.log[i]); }
    }
  }

  lemma GoesOnTwice(a: Engine, b: Engine, c: Engine)
    requires GoesOn(a, b) && GoesOn(b, c)
    ensures GoesOn(a, c)
  {
    forall i | |a.log| <= i < |c.log| ensures CarriesItsAnswer(c, c.log[i]) {
      if i < |b.log| { assert c.log[i] == b.log[i] && CarriesItsAnswer(b, b.log[i]); }
    }
  }

  lemma VoidingGoesOn(e: Engine, through: Option<int>)
    requires Consistent(e)
    ensures GoesOn(e, VoidRemaining(e, through))
  {
    VoidEachEffect(e, e.order, through);
  }

  lemma SettlingGoesOn(e: Engine, n: int, after: GameSnapshot, finishes: bool)
    requires Inv(e) && CanSettle(e, n)
    ensures GoesOn(e, SettleWithBaseline(e, n, after, finishes))
  {
    var settled := Settle(e, n, e.baselines[n], after, finishes);
    match ResolveCs2Settlement(e.rounds[n].condition, e.baselines[n], after) {
      case Invalid(_) =>
      case Decided(answer) => DecidedGoesOn(e, n, after, answer, finishes);
    }
    BaselinesDoNotMatter(e, settled, settled.baselines - {n});
  }

  lemma BaselinesDoNotMatter(e: Engine, later: Engine, baselines: map<int, GameSnapshot>)
    requires GoesOn(e, later)
    ensures GoesOn(e, later.(baselines := baselines))
  {
    var kept := later.(baselines := baselines);
    forall i | |e.log| <= i < |kept.log| ensures CarriesItsAnswer(kept, kept.log[i]) {
      assert CarriesItsAnswer(later, later.log[i]);
    }
  }

  lemma DecidedGoesOn(e: Engine, n: int, after: GameSnapshot, answer: Answer, finishes: bool)
    requires Inv(e) && CanSettle(e, n)
    requires ResolveCs2Settlement(e.rounds[n].condition, e.baselines[n], after) == Decided(answer)
    ensures var settled := MarkSettled(e, n, e.baselines[n], after, answer);
            GoesOn(e, if finishes then Finish(settled) else settled)
  {
    MarkSettledKeeps(e, n, e.baselines[n], after, answer);
    MarkingGoesOn(e, n, after, answer);
    var settled := MarkSettled(e, n, e.baselines[n], after, answer);
    if finishes {
      VoidingGoesOn(settled.(finished := true), None);
      GoesOnTwice(e, settled.(finished := true), Finish(settled));
    }
  }

  lemma MarkingGoesOn(e: Engine, n: int, after: GameSnapshot, answer: Answer)
    requires CanSettle(e, n) && ResolveCs2Settlement(e.rounds[n].condition, e.baselines[n], after) == Decided(answer)
    ensures GoesOn(e, MarkSettled(e, n, e.baselines[n], after, answer))
  {
  }

  lemma LockGoesOn(e: Engine, n: int, question: Condition)
    requires Inv(e)
    ensures GoesOn(e, HandleRoundLock(e, n, question))
  {
    if n !in e.rounds {
      VoidingGoesOn(e, Some(n));
      OpeningGoesOn(VoidRemaining(e, Some(n)), n + 1, question);
      GoesOnTwice(e, VoidRemaining(e, Some(n)), HandleOpen(VoidRemaining(e, Some(n)), n + 1, question));
    }
  }

  lemma OpeningGoesOn(e: Engine, n: int, question: Condition)
    ensures GoesOn(e, HandleOpen(e, n, question))
  {
  }

  lemma MatchEndGoesOn(e: Engine, finishes: bool)
    requires Inv(e)
    ensures GoesOn(e, HandleMatchEnd(e, finishes))
  {
    var settled := SettleLastRound(e, finishes);
    if settled != e {
      var n := DeriveRoundNumber(e.lastLive.value) - 1;
      SettlingGoesOn(e, n, e.lastLive.value, finishes);
      SettleKeeps(e, n, e.baselines[n], e.lastLive.value, finishes);
    }
    VoidingGoesOn(settled, None);
    GoesOnTwice(e, settled, VoidRemaining(settled, None));
  }

  lemma DeliveryGoesOn(e: Engine, signal: Signal, question: Condition, finishes: bool)
    requires Inv(e)
    ensures Inv(Deliver(e, signal, question, finishes)) && GoesOn(e, Deliver(e, signal, question, finishes))
  {
    ApplyKeeps(e, signal, question, finishes);
    match signal
    case SnapshotSeen(_) =>
    case RoundLock(n) => LockGoesOn(e, n, question);
    case RoundEnd(n, after) => if CanSettle(e, n) { SettlingGoesOn(e, n, after, finishes); }
    case MatchEnd =>
      var ended := HandleMatchEnd(e, finishes);
      MatchEndGoesOn(e, finishes);
      FinishKeeps(ended);
      VoidingGoesOn(ended.(finished := true), None);
      GoesOnTwice(e, ended, Finish(ended));
  }

  lemma {:induction false} DeliveriesGoOn(e: Engine, signals: seq<Signal>, question: Condition, finishes: bool)
    requires Inv(e)
    ensures Inv(DeliverAll(e, signals, question, finishes)) && GoesOn(e, DeliverAll(e, signals, question, finishes))
    decreases |signals|
  {
    if signals != [] {
      var next := Deliver(e, signals[0], question, finishes);
      DeliveryGoesOn(e, signals[0], question, finishes);
      DeliveriesGoOn(next, signals[1..], question, finishes);
      GoesOnTwice(e, next, DeliverAll(e, signals, question, finishes));
    }
  }

  /** Over every poll stream every settled round carries its own question's answer, and no later step changes either. */
  lemma {:induction false} EveryAnswerIsTrue(teams: (Uuid, Uuid), question: Condition, polls: seq<Poll>)
    ensures var e := RunPolls(Start(teams, question), polls).engine; Inv(e) && Truthful(e)
  {
    if polls == [] {
      OpeningIsSound(teams, question);
    } else {
      var shorter, last := polls[..|polls| - 1], polls[|polls| - 1];
      EveryAnswerIsTrue(teams, question, shorter);
      var p := RunPolls(Start(teams, question), shorter);
      if last.delivered {
        DeliveriesGoOn(p.engine, Track(p.tracker, last.snapshot).1, last.question, last.finishes);
        GoesOnKeeps(p.engine, RunPolls(Start(teams, question), polls).engine);
      }
    }
  }

  /**
   * Over every poll stream: a round settled on "does T win" was answered yes exactly if T's score rose between two
   * snapshots of the same two teams that are one round apart.
   */
  lemma {:induction false} SettledWinnersRose(
    teams: (Uuid, Uuid), question: Condition, polls: seq<Poll>, event: RoundEvent, t: Uuid, b: TeamStats, a: TeamStats)
    requires event in RunPolls(Start(teams, question), polls).engine.log && event.WasSettled?
    requires IsRow(event.before, t, b) && IsRow(event.after, t, a)
    ensures var e := RunPolls(Start(teams, question), polls).engine;
            && event.number in e.rounds
            && var c := e.rounds[event.number].condition;
               c.topic in {RoundWinner, PistolRound} && c.targetTeamId == Some(t) ==>
                 && (event.answer == Yes <==> a.score > b.score)
                 && event.before.first.score + event.before.second.score + 1 == event.number
                 && event.after.first.score + event.after.second.score == event.number
                 && SameTwo(event.before, event.after)
  {
    EveryAnswerIsTrue(teams, question, polls);
    SettlementsNeverMixRounds(teams, question, polls);
    var e := RunPolls(Start(teams, question), polls).engine;
    var i :| 0 <= i < |e.log| && e.log[i] == event;
    assert CarriesItsAnswer(e, e.log[i]) && DiffsItsRound(e.log[i]);
    var c := e.rounds[event.number].condition;
    if c.topic in {RoundWinner, PistolRound} && c.targetTeamId == Some(t) {
      WinnerMeans(c, event.before, event.after, t, b, a);
    }
  }
}

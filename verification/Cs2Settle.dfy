/** Settling one CS2 question from the snapshots at lock and at round end (cs2/settle.ts). */
module Cs2Settle {
  import opened Cs2Types

  datatype Topic =
    | RoundWinner | PistolRound | WeaponKill | TeamAce | Multikill
    | SurvivorsTeam | SurvivorsRound | OtScore

  datatype Condition = Condition(
    topic: Topic, targetTeamId: Option<Uuid>, weapon: Option<string>, y: Option<int>)

  datatype InvalidReason = InvalidCondition | TeamIdentityMismatch | UnknownTeamId

  datatype Settlement = Decided(answer: Answer) | Invalid(reason: InvalidReason)

  function FindTeam(s: GameSnapshot, teamId: Uuid): Option<TeamStats> {
    if s.first.teamId == teamId then Some(s.first)
    else if s.second.teamId == teamId then Some(s.second)
    else None
  }

  /** The count of the first entry for the weapon, 0 without one. */
  function WeaponKillCount(kills: seq<WeaponKills>, weapon: string): int {
    if kills == [] then 0
    else if kills[0].weapon == weapon then kills[0].count
    else WeaponKillCount(kills[1..], weapon)
  }

  /** Kills by player id; a repeated id keeps its last entry. */
  function KillsById(players: seq<PlayerKills>): map<string, int> {
    if players == [] then map[]
    else KillsById(players[..|players| - 1])[players[|players| - 1].id := players[|players| - 1].kills]
  }

  /** Kill gains of the players present in the baseline, in feed order. */
  function KillDeltas(baseline: map<string, int>, after: seq<PlayerKills>): seq<int> {
    if after == [] then []
    else
      (if after[0].id in baseline then [after[0].kills - baseline[after[0].id]] else [])
      + KillDeltas(baseline, after[1..])
  }

  function MaxOf(xs: seq<int>): int
    requires xs != []
  {
    if |xs| == 1 then xs[0]
    else var m := MaxOf(xs[1..]); if xs[0] > m then xs[0] else m
  }

  function FromBool(b: bool): Settlement {
    Decided(if b then Yes else No)
  }

  /** The answer of a question whose target team was found in both snapshots. */
  function ResolveTargeted(c: Condition, before: TeamStats, after: TeamStats): Settlement
    requires c.topic.RoundWinner? || c.topic.PistolRound? || c.topic.TeamAce?
             || ((c.topic.Multikill? || c.topic.SurvivorsTeam?) && c.y.Some?)
  {
    var deltas := KillDeltas(KillsById(before.players), after.players);
    match c.topic
    case TeamAce => FromBool(|deltas| == 5 && forall i | 0 <= i < |deltas| :: deltas[i] == 1)
    case Multikill => FromBool((if |deltas| > 0 then MaxOf(deltas) else 0) >= c.y.value)
    case SurvivorsTeam => FromBool(5 - (after.deaths - before.deaths) > c.y.value)
    case _ => FromBool(after.score > before.score)
  }

  predicate NeedsThreshold(t: Topic) { t.Multikill? || t.SurvivorsTeam? || t.SurvivorsRound? }

  predicate NeedsTarget(t: Topic) {
    t.RoundWinner? || t.PistolRound? || t.TeamAce? || t.Multikill? || t.SurvivorsTeam?
  }

  function ResolveCs2Settlement(c: Condition, before: GameSnapshot, after: GameSnapshot): Settlement {
    if !HaveSameTeams(before, after) then Invalid(TeamIdentityMismatch)
    else if NeedsTarget(c.topic) && c.targetTeamId.None? then Invalid(InvalidCondition)
    else if NeedsThreshold(c.topic) && c.y.None? then Invalid(InvalidCondition)
    else if NeedsTarget(c.topic) then
      var b := FindTeam(before, c.targetTeamId.value);
      var a := FindTeam(after, c.targetTeamId.value);
      if b.None? || a.None? then Invalid(UnknownTeamId) else ResolveTargeted(c, b.value, a.value)
    else if c.topic.WeaponKill? then
      if c.weapon.None? then Invalid(InvalidCondition)
      else
        var count := (s: GameSnapshot) =>
          WeaponKillCount(s.first.weaponKills, c.weapon.value) + WeaponKillCount(s.second.weaponKills, c.weapon.value);
        FromBool(count(after) > count(before))
    else if c.topic.SurvivorsRound? then
      var deaths := after.first.deaths - before.first.deaths + (after.second.deaths - before.second.deaths);
      FromBool(10 - deaths > c.y.value)
    else FromBool(after.first.score == 12 && after.second.score == 12)
  }

  /** The order in which the feed lists the two teams never changes an answer. */
  lemma TeamOrderIsIrrelevant(c: Condition, before: GameSnapshot, after: GameSnapshot)
    ensures ResolveCs2Settlement(c, SwapTeams(before), after) == ResolveCs2Settlement(c, before, after)
    ensures ResolveCs2Settlement(c, before, SwapTeams(after)) == ResolveCs2Settlement(c, before, after)
  {
    if HaveSameTeams(before, after) && NeedsTarget(c.topic) && c.targetTeamId.Some? {
      var id := c.targetTeamId.value;
      assert FindTeam(SwapTeams(before), id) == FindTeam(before, id);
      assert FindTeam(SwapTeams(after), id) == FindTeam(after, id);
    }
  }

  predicate AsksWinner(c: Condition, teamId: Uuid) {
    (c.topic.RoundWinner? || c.topic.PistolRound?) && c.targetTeamId == Some(teamId)
  }

  /**
   * Over exactly one scored round, the questions "does team X win" for the two teams have opposite
   * answers, whichever way the individual scores were corrected and the teams were listed.
   */
  lemma WinnerQuestionsAreOpposite(
    c1: Condition, c2: Condition, before: GameSnapshot, after: GameSnapshot)
    requires HaveSameTeams(before, after)
    requires AsksWinner(c1, before.first.teamId) && AsksWinner(c2, before.second.teamId)
    requires DeriveRoundNumber(after) == DeriveRoundNumber(before) + 1
    ensures {ResolveCs2Settlement(c1, before, after), ResolveCs2Settlement(c2, before, after)}
            == {Decided(Yes), Decided(No)}
  {
    var r1, r2 := ResolveCs2Settlement(c1, before, after), ResolveCs2Settlement(c2, before, after);
    assert (r1 == Decided(Yes) && r2 == Decided(No)) || (r1 == Decided(No) && r2 == Decided(Yes));
  }
}

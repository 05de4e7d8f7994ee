/** Values shared by the CS2 modules: answers, statuses and the already parsed feed snapshot. */
module Cs2Types {

  datatype Option<+T> = None | Some(value: T)

  /** Identities are only compared, never inspected. */
  type Uuid = nat

  datatype Answer = Yes | No

  datatype WeaponKills = WeaponKills(weapon: string, count: int)
  datatype PlayerKills = PlayerKills(id: string, kills: int)

  /** One team's running totals on the current map; `score` counts rounds won. */
  datatype TeamStats = TeamStats(
    teamId: Uuid, score: int, deaths: int, weaponKills: seq<WeaponKills>, players: seq<PlayerKills>)

  datatype GameSnapshot = GameSnapshot(first: TeamStats, second: TeamStats, ticking: bool, seconds: int)

  const ROUND_RESET_THRESHOLD_SECONDS := 30

  /** 0-0 is round 1. */
  function DeriveRoundNumber(s: GameSnapshot): int {
    s.first.score + s.second.score + 1
  }

  /** The jump from the short freeze-time clock to the reset live-round clock. */
  predicate IsRoundLive(before: GameSnapshot, after: GameSnapshot) {
    after.ticking && after.seconds > before.seconds + ROUND_RESET_THRESHOLD_SECONDS
  }

  /** Both snapshots show the same two distinct teams, in either order. */
  predicate HaveSameTeams(before: GameSnapshot, after: GameSnapshot) {
    && before.first.teamId != before.second.teamId
    && after.first.teamId != after.second.teamId
    && (after.first.teamId == before.first.teamId || after.first.teamId == before.second.teamId)
    && (after.second.teamId == before.first.teamId || after.second.teamId == before.second.teamId)
  }

  function SwapTeams(s: GameSnapshot): GameSnapshot {
    s.(first := s.second, second := s.first)
  }

  /** There is always an identity that is not in use. */
  lemma {:induction false} UnusedId(used: set<Uuid>) returns (id: Uuid)
    ensures forall x | x in used :: x < id
  {
    if used == {} {
      id := 0;
    } else {
      var x :| x in used;
      var rest := UnusedId(used - {x});
      id := if rest <= x then x + 1 else rest;
      forall y | y in used ensures y < id { assert y == x || y in used - {x}; }
    }
  }
}

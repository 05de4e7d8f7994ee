/** The classic zone and round points (contracts, cs2-classic.ts). */
module ClassicRules {

  const ZONE_INCREMENTS_R6_TO_R24: seq<nat> := [1, 1, 2, 1, 1, 1, 2, 0, 1, 1, 2, 0, 1, 1, 2, 0, 1, 1, 2]
  const GRACE_ROUNDS := 5
  const REGULATION_ROUNDS := 24
  const ZONE_AFTER_REGULATION: nat := Sum(ZONE_INCREMENTS_R6_TO_R24)
  const DOUBLE_ROUNDS: set<int> := {1, 12, 13, 24}

  function Sum(xs: seq<nat>): nat {
    if xs == [] then 0 else Sum(xs[..|xs| - 1]) + xs[|xs| - 1]
  }

  /** How far the zone moves when round `n` settles. */
  function ZoneIncrement(n: int): nat {
    if n <= GRACE_ROUNDS then 0
    else if n <= REGULATION_ROUNDS then ZONE_INCREMENTS_R6_TO_R24[n - GRACE_ROUNDS - 1]
    else 1
  }

  function ZoneAfter(n: int): nat {
    if n <= 0 then 0 else ZoneAfter(n - 1) + ZoneIncrement(n)
  }

  function RoundPoints(n: int): nat { if n in DOUBLE_ROUNDS then 2 else 1 }

  /** The score of a player who answered every round through `n` correctly. */
  function PerfectScore(n: nat): nat {
    if n == 0 then 0 else PerfectScore(n - 1) + RoundPoints(n)
  }

  lemma {:induction false} GraceIsZero(n: int)
    ensures n <= GRACE_ROUNDS ==> ZoneAfter(n) == 0
    decreases if n < 0 then 0 else n
  {
    if 0 < n <= GRACE_ROUNDS { GraceIsZero(n - 1); }
  }

  /** How far regulation runs ahead of one point a round: the increments of two catch up with the grace rounds. */
  function CatchUp(n: int): nat {
    if n < 8 then 0 else if n < 12 then 1 else if n % 4 == 0 then 2 else 1
  }

  lemma {:induction false} IncrementSum(k: nat)
    requires k <= |ZONE_INCREMENTS_R6_TO_R24|
    ensures Sum(ZONE_INCREMENTS_R6_TO_R24[..k]) == k + CatchUp(k + GRACE_ROUNDS)
  {
    if k > 0 {
      IncrementSum(k - 1);
      var taken := ZONE_INCREMENTS_R6_TO_R24[..k];
      assert taken[..k - 1] == ZONE_INCREMENTS_R6_TO_R24[..k - 1];
    }
  }

  lemma {:induction false} ZoneIsASum(n: nat)
    requires GRACE_ROUNDS <= n <= REGULATION_ROUNDS
    ensures ZoneAfter(n) == Sum(ZONE_INCREMENTS_R6_TO_R24[..n - GRACE_ROUNDS])
  {
    if n == GRACE_ROUNDS {
      GraceIsZero(n);
    } else {
      ZoneIsASum(n - 1);
      var taken := ZONE_INCREMENTS_R6_TO_R24[..n - GRACE_ROUNDS];
      assert taken[..|taken| - 1] == ZONE_INCREMENTS_R6_TO_R24[..n - 1 - GRACE_ROUNDS];
    }
  }

  /** The zone's closed form in regulation: 0 after round 5, 4 after 8, 9 after 12, 21 after 24. */
  lemma {:induction false} ZoneInRegulation(n: nat)
    requires GRACE_ROUNDS <= n <= REGULATION_ROUNDS
    ensures ZoneAfter(n) == n - GRACE_ROUNDS + CatchUp(n)
  {
    ZoneIsASum(n);
    IncrementSum(n - GRACE_ROUNDS);
  }

  lemma {:induction false} ZoneInOvertime(n: nat)
    requires n >= REGULATION_ROUNDS
    ensures ZoneAfter(n) == ZONE_AFTER_REGULATION + (n - REGULATION_ROUNDS) == 21 + (n - REGULATION_ROUNDS)
  {
    if n == REGULATION_ROUNDS {
      ZoneInRegulation(n);
      IncrementSum(|ZONE_INCREMENTS_R6_TO_R24|);
      assert ZONE_INCREMENTS_R6_TO_R24[..|ZONE_INCREMENTS_R6_TO_R24|] == ZONE_INCREMENTS_R6_TO_R24;
    } else {
      ZoneInOvertime(n - 1);
    }
  }

  /** The summing loop and its overtime shortcut compute the zone, for every round number. */
  method Cs2ClassicZoneAfter(roundNumber: int) returns (zone: nat)
    ensures zone == ZoneAfter(roundNumber)
  {
    if roundNumber > REGULATION_ROUNDS {
      ZoneInOvertime(roundNumber);
      return ZONE_AFTER_REGULATION + (roundNumber - REGULATION_ROUNDS);
    }
    zone := 0;
    var round := GRACE_ROUNDS + 1;
    GraceIsZero(GRACE_ROUNDS);
    while round <= roundNumber
      invariant GRACE_ROUNDS < round
      invariant round <= roundNumber + 1 || round == GRACE_ROUNDS + 1
      invariant zone == ZoneAfter(round - 1)
    {
      zone := zone + ZONE_INCREMENTS_R6_TO_R24[round - GRACE_ROUNDS - 1];
      round := round + 1;
    }
    GraceIsZero(roundNumber);
  }

  lemma ZoneNeverFalls(n: nat)
    ensures ZoneAfter(n) <= ZoneAfter(n + 1)
  {
  }

  /** One point a round, and one more for each double round so far. */
  lemma {:induction false} PerfectInRegulation(n: nat)
    requires n <= REGULATION_ROUNDS
    ensures PerfectScore(n)
            == n + (if n >= 1 then 1 else 0) + (if n >= 12 then 1 else 0) + (if n >= 13 then 1 else 0) + (if n >= 24 then 1 else 0)
  {
    if n > 0 { PerfectInRegulation(n - 1); }
  }

  /** The zone never overtakes a player without a wrong answer; from round 24 on they stay seven points clear. */
  lemma {:induction false} PerfectPlayerIsNeverBelowTheZone(n: nat)
    ensures ZoneAfter(n) <= PerfectScore(n)
    ensures n >= REGULATION_ROUNDS ==> PerfectScore(n) == ZoneAfter(n) + 7
  {
    if n <= REGULATION_ROUNDS {
      PerfectInRegulation(n);
      if n >= GRACE_ROUNDS { ZoneInRegulation(n); } else { GraceIsZero(n); }
    } else {
      PerfectPlayerIsNeverBelowTheZone(n - 1);
    }
  }
}

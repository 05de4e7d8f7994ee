/** Paying out a finished arena (payout/service.ts), against the on-chain program's own settlement (programs/arena/src/lib.rs). */
module PayoutService {
  import opened Cs2Types

  // ----- the split

  const FEE_BPS := 1_000
  const BPS_SCALE := 10_000

  /** The fee in two parts, as computed without wide integers. */
  function PlatformFee(gross: nat): (fee: nat)
    ensures fee <= gross
  {
    gross / BPS_SCALE * FEE_BPS + gross % BPS_SCALE * FEE_BPS / BPS_SCALE
  }

  function ShareOf(distributable: nat, winners: nat, i: nat): nat
    requires winners > 0
  {
    var share := distributable / winners;
    if i == 0 then share + (distributable - share * winners) else share
  }

  datatype Pay = Pay(userId: Uuid, amount: nat)

  /** The remainder goes to the first winner. */
  function PlanOf(winners: seq<Uuid>, pool: nat, fee: nat): (plan: seq<Pay>)
    requires winners != [] && fee <= pool
    ensures |plan| == |winners|
  {
    seq(|winners|, i requires 0 <= i < |winners| => Pay(winners[i], ShareOf(pool - fee, |winners|, i)))
  }

  function Total(plan: seq<Pay>): nat {
    if plan == [] then 0 else Total(plan[..|plan| - 1]) + plan[|plan| - 1].amount
  }

  lemma {:induction false} EqualShares(plan: seq<Pay>, share: nat, first: nat)
    requires plan != [] && plan[0].amount == first && forall i | 1 <= i < |plan| :: plan[i].amount == share
    ensures Total(plan) == first + (|plan| - 1) * share
  {
    if |plan| == 1 {
      assert Total(plan[..0]) == 0;
    } else {
      EqualShares(plan[..|plan| - 1], share, first);
      assert (|plan| - 1) * share == (|plan| - 2) * share + share;
    }
  }

  /** Fee and payouts are the pool, to the lamport, for any fee within it. */
  lemma NothingIsLostInTheSplit(winners: seq<Uuid>, pool: nat, fee: nat)
    requires winners != [] && fee <= pool
    ensures fee + Total(PlanOf(winners, pool, fee)) == pool
  {
    var n := |winners|;
    var share := (pool - fee) / n;
    EqualShares(PlanOf(winners, pool, fee), share, ShareOf(pool - fee, n, 0));
    assert n * share == (n - 1) * share + share;
  }

  // ----- what the chain does

  /** Lamports to the treasury and to each winner; None if the escrow does not cover the fee. */
  function OnchainSplit(escrow: nat, gross: nat, winners: nat): Option<(nat, seq<nat>)>
    requires winners > 0
  {
    var fee := gross * FEE_BPS / BPS_SCALE;
    if escrow < fee then None
    else Some((fee, seq(winners, i requires 0 <= i < winners => ShareOf(escrow - fee, winners, i))))
  }

  lemma FeesAgree(gross: nat)
    ensures PlatformFee(gross) == gross * FEE_BPS / BPS_SCALE
  {
    var q, r := gross / BPS_SCALE, gross % BPS_SCALE;
    assert gross * FEE_BPS == q * FEE_BPS * BPS_SCALE + r * FEE_BPS;
  }

  function Amounts(plan: seq<Pay>): seq<nat> { seq(|plan|, i requires 0 <= i < |plan| => plan[i].amount) }

  /**
   * The program, which knows only its escrow and its recorded pool, transfers the recorded amounts exactly when the escrow
   * less its fee is our pool less ours; with the same recorded pool, exactly when the escrow holds it.
   */
  lemma PlanIsPaidExactlyWhen(winners: seq<Uuid>, pool: nat, escrow: nat, gross: nat)
    requires winners != []
    ensures var split := OnchainSplit(escrow, gross, |winners|);
            var plan := PlanOf(winners, pool, PlatformFee(pool));
            && (split.Some? ==>
                  (split.value.1 == Amounts(plan) <==> escrow - PlatformFee(gross) == pool - PlatformFee(pool)))
            && (gross == pool ==> (split == Some((PlatformFee(pool), Amounts(plan))) <==> escrow == pool))
  {
    FeesAgree(gross);
    FeesAgree(pool);
    var n, left := |winners|, pool - PlatformFee(pool);
    var plan := PlanOf(winners, pool, PlatformFee(pool));
    if escrow >= PlatformFee(gross) {
      var shares := OnchainSplit(escrow, gross, n).value.1;
      if shares == Amounts(plan) {
        assert shares[0] == plan[0].amount;
        if n > 1 { assert shares[1] == plan[1].amount; }
        SharesDetermineTheTotal(escrow - PlatformFee(gross), left, n);
      }
    }
  }

  lemma SharesDetermineTheTotal(a: nat, b: nat, n: nat)
    requires n > 0 && ShareOf(a, n, 0) == ShareOf(b, n, 0) && (n > 1 ==> ShareOf(a, n, 1) == ShareOf(b, n, 1))
    ensures a == b
  {
    if n == 1 { assert a / 1 == a && b / 1 == b; } else { assert a / n == b / n; }
  }

  /**
   * A tenth of the pool is the fee, rounded down; of the rest every winner is paid the same whole number of lamports, and
   * the first one also what cannot be shared, which is less than a lamport a winner.
   */
  lemma SharesAreEven(winners: seq<Uuid>, pool: nat, i: nat)
    requires i < |winners|
    ensures var plan, n, rest := PlanOf(winners, pool, PlatformFee(pool)), |winners|, pool - pool / 10;
            && PlatformFee(pool) == pool / 10
            && plan[i].userId == winners[i] && plan[i].amount == rest / n + (if i == 0 then rest % n else 0)
  {
    FeesAgree(pool);
  }

  /** The program takes the same tenth of its recorded pool, and shares out what else its escrow holds in the same way. */
  lemma ProgramPaysEvenly(escrow: nat, gross: nat, winners: nat, i: nat)
    requires i < winners
    ensures var split := OnchainSplit(escrow, gross, winners);
            && (split == None <==> escrow < gross / 10)
            && (split != None ==>
                  && split.value.0 == gross / 10 && |split.value.1| == winners
                  && var rest := escrow - gross / 10;
                     split.value.1[i] == rest / winners + if i == 0 then rest % winners else 0)
  {
  }
}

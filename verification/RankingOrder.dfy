/** The player ranking in the fields of its rows and results alone (leaderboard/player-ranking.ts). */
module RankingOrder {
  import opened Cs2Types
  import opened PlayerRanking

  /** Who places higher: points, then wins, then second places, then rounds played, then the fewer arenas. */
  predicate PlacesHigher(a: Totals, b: Totals) {
    || a.points > b.points
    || (a.points == b.points
        && (|| a.wins > b.wins
            || (a.wins == b.wins
                && (|| a.secondPlaces > b.secondPlaces
                    || (a.secondPlaces == b.secondPlaces
                        && (|| a.roundsPlayed > b.roundsPlayed
                            || (a.roundsPlayed == b.roundsPlayed && a.arenasPlayed < b.arenasPlayed)))))))
  }

  predicate Tied(a: Totals, b: Totals) {
    && a.points == b.points && a.wins == b.wins && a.secondPlaces == b.secondPlaces
    && a.roundsPlayed == b.roundsPlayed && a.arenasPlayed == b.arenasPlayed
  }

  /** The number of a player's results that `count`. */
  function Results(results: seq<ArenaResult>, u: Uuid, counts: ArenaResult -> bool): nat {
    if results == [] then 0
    else
      var last := results[|results| - 1];
      Results(results[..|results| - 1], u, counts) + if last.userId == u && counts(last) then 1 else 0
  }

  function Added(results: seq<ArenaResult>, u: Uuid, amount: ArenaResult -> int): int {
    if results == [] then 0
    else
      var last := results[|results| - 1];
      Added(results[..|results| - 1], u, amount) + if last.userId == u then amount(last) else 0
  }

  /** A player's row counts and adds up that player's own results. */
  lemma {:induction false} TotalsMean(results: seq<ArenaResult>, u: Uuid, payouts: Payouts)
    ensures var t := TotalsOf(results, u, payouts);
            && t.points == Added(results, u, (r: ArenaResult) => r.score)
            && t.totalScore == Added(results, u, (r: ArenaResult) => r.score)
            && t.roundsPlayed == Added(results, u, (r: ArenaResult) => r.roundsPlayed)
            && t.wins == Results(results, u, (r: ArenaResult) => r.won)
            && t.secondPlaces == Results(results, u, (r: ArenaResult) => r.rank == 2)
            && t.arenasPlayed == Results(results, u, (r: ArenaResult) => true)
            && t.payout == if u in payouts then payouts[u] else 0
  {
    if results != [] { TotalsMean(results[..|results| - 1], u, payouts); }
  }

  lemma {:induction false} RanksAlong(sorted: seq<Totals>, i: nat, j: nat)
    requires Sorted(sorted) && i < j < |sorted|
    ensures RankAt(sorted, i) < RankAt(sorted, j) <==> PlacesHigher(sorted[i], sorted[j])
    ensures RankAt(sorted, i) == RankAt(sorted, j) <==> Tied(sorted[i], sorted[j])
    ensures !PlacesHigher(sorted[j], sorted[i])
  {
    TieBeginsAt(sorted, i);
    TieBeginsAt(sorted, j);
    assert Before(sorted[i], sorted[j]);
    if Better(sorted[i], sorted[j]) {
      assert i < RankAt(sorted, j) - 1;
    } else {
      var r, q := RankAt(sorted, i) - 1, RankAt(sorted, j) - 1;
      assert Better(sorted[r], sorted[i]) <==> Better(sorted[r], sorted[j]);
      assert Better(sorted[q], sorted[i]) <==> Better(sorted[q], sorted[j]);
    }
  }

  /** The number of players of the ranking who place higher. */
  function Higher(ranking: seq<Ranking>, t: Totals): nat {
    if ranking == [] then 0
    else Higher(ranking[..|ranking| - 1], t) + if PlacesHigher(ranking[|ranking| - 1].totals, t) then 1 else 0
  }

  /** Of two players the one who places higher has the smaller rank, and they share one exactly if they tie in all five. */
  lemma RanksMean(results: seq<ArenaResult>, payouts: Payouts, i: nat, j: nat)
    requires i < |RankPlayersSpec(results, payouts)| && j < |RankPlayersSpec(results, payouts)|
    ensures var a, b := RankPlayersSpec(results, payouts)[i], RankPlayersSpec(results, payouts)[j];
            && (a.rank < b.rank <==> PlacesHigher(a.totals, b.totals))
            && (a.rank == b.rank <==> Tied(a.totals, b.totals))
  {
    AllTotalsAre(results, payouts);
    SortSorts(AllTotals(results, payouts));
    var sorted := Sort(AllTotals(results, payouts));
    if i < j { RanksAlong(sorted, i, j); } else if j < i { RanksAlong(sorted, j, i); }
  }

  /** A rank is one more than the number of players who place higher. */
  lemma RankIsOneMoreThanTheHigher(results: seq<ArenaResult>, payouts: Payouts, i: nat)
    requires i < |RankPlayersSpec(results, payouts)|
    ensures var ranking := RankPlayersSpec(results, payouts);
            ranking[i].rank == 1 + Higher(ranking, ranking[i].totals)
  {
    var ranking, sorted := RankPlayersSpec(results, payouts), Sort(AllTotals(results, payouts));
    AllTotalsAre(results, payouts);
    SortSorts(AllTotals(results, payouts));
    TieBeginsAt(sorted, i);
    forall j | 0 <= j < |ranking| ensures PlacesHigher(ranking[j].totals, ranking[i].totals) <==> j < RankAt(sorted, i) - 1 {
      assert ranking[j].totals == sorted[j];
      assert Better(sorted[j], sorted[i]) <==> j < RankAt(sorted, i) - 1;
    }
    HigherOfPrefix(ranking, sorted[i], RankAt(sorted, i) - 1);
  }

  lemma {:induction false} HigherOfPrefix(ranking: seq<Ranking>, t: Totals, k: nat)
    requires k <= |ranking|
    requires forall j | 0 <= j < |ranking| :: PlacesHigher(ranking[j].totals, t) <==> j < k
    ensures Higher(ranking, t) == k
  {
    if ranking != [] {
      var n := |ranking| - 1;
      HigherOfPrefix(ranking[..n], t, if k <= n then k else n);
    }
  }

  /** Rows stand by place, and in a full tie by user id. */
  lemma RowsStand(results: seq<ArenaResult>, payouts: Payouts, i: nat, j: nat)
    requires i < j < |RankPlayersSpec(results, payouts)|
    ensures var a, b := RankPlayersSpec(results, payouts)[i], RankPlayersSpec(results, payouts)[j];
            PlacesHigher(a.totals, b.totals) || (Tied(a.totals, b.totals) && a.totals.userId < b.totals.userId)
  {
    AllTotalsAre(results, payouts);
    SortSorts(AllTotals(results, payouts));
    var sorted := Sort(AllTotals(results, payouts));
    assert Before(sorted[i], sorted[j]);
  }

  /** A row holds its player's totals, and that player has results. */
  lemma RowsAreOfPlayers(results: seq<ArenaResult>, payouts: Payouts, i: nat)
    requires i < |RankPlayersSpec(results, payouts)|
    ensures var t := RankPlayersSpec(results, payouts)[i].totals;
            t == TotalsOf(results, t.userId, payouts) && Played(results, t.userId)
  {
    var all, t := AllTotals(results, payouts), RankPlayersSpec(results, payouts)[i].totals;
    AllTotalsAre(results, payouts);
    SortSorts(all);
    SortMembers(all, t);
    assert t in Sort(all);
    var k :| 0 <= k < |all| && all[k] == t;
    assert HasUser(all, t.userId);
  }
}

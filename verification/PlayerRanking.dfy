/** The cross-arena player ranking (leaderboard/player-ranking.ts). */
module PlayerRanking {
  import opened Cs2Types

  datatype ArenaResult = ArenaResult(userId: Uuid, score: int, rank: int, won: bool, roundsPlayed: int)

  datatype Totals = Totals(
    userId: Uuid, points: int, arenasPlayed: int, wins: int, secondPlaces: int, roundsPlayed: int,
    totalScore: int, payout: int)

  datatype Ranking = Ranking(totals: Totals, rank: int)

  type Payouts = map<Uuid, int>

  function Fresh(userId: Uuid, payouts: Payouts): Totals {
    Totals(userId, 0, 0, 0, 0, 0, 0, if userId in payouts then payouts[userId] else 0)
  }

  function AddResult(t: Totals, r: ArenaResult): Totals {
    t.(points := t.points + r.score, totalScore := t.totalScore + r.score, arenasPlayed := t.arenasPlayed + 1,
       wins := t.wins + if r.won then 1 else 0, secondPlaces := t.secondPlaces + if r.rank == 2 then 1 else 0,
       roundsPlayed := t.roundsPlayed + r.roundsPlayed)
  }

  /** Negative when `a` stands before `b`, zero on a full tie. */
  function Compare(a: Totals, b: Totals): int {
    if b.points != a.points then b.points - a.points
    else if b.wins != a.wins then b.wins - a.wins
    else if b.secondPlaces != a.secondPlaces then b.secondPlaces - a.secondPlaces
    else if b.roundsPlayed != a.roundsPlayed then b.roundsPlayed - a.roundsPlayed
    else a.arenasPlayed - b.arenasPlayed
  }

  predicate Better(a: Totals, b: Totals) { Compare(a, b) < 0 }

  /** The sort order: full ties stand by user id. */
  predicate Before(a: Totals, b: Totals) { Better(a, b) || (Compare(a, b) == 0 && a.userId < b.userId) }

  lemma BeforeIsTransitive(a: Totals, b: Totals, c: Totals)
    requires Before(a, b) && Before(b, c)
    ensures Before(a, c)
  {
  }

  // ----- totals

  /** What one player's results add up to, whoever else played. */
  function TotalsOf(results: seq<ArenaResult>, user: Uuid, payouts: Payouts): (t: Totals)
    ensures t.userId == user
  {
    if results == [] then Fresh(user, payouts)
    else
      var before, last := TotalsOf(results[..|results| - 1], user, payouts), results[|results| - 1];
      if last.userId == user then AddResult(before, last) else before
  }

  predicate Played(results: seq<ArenaResult>, user: Uuid) { exists i :: 0 <= i < |results| && results[i].userId == user }

  /** Adds a result to its player's row, or appends a row. */
  function Accumulate(rows: seq<Totals>, r: ArenaResult, payouts: Payouts): seq<Totals> {
    if rows == [] then [AddResult(Fresh(r.userId, payouts), r)]
    else if rows[0].userId == r.userId then [AddResult(rows[0], r)] + rows[1..]
    else [rows[0]] + Accumulate(rows[1..], r, payouts)
  }

  function AllTotals(results: seq<ArenaResult>, payouts: Payouts): seq<Totals> {
    if results == [] then []
    else Accumulate(AllTotals(results[..|results| - 1], payouts), results[|results| - 1], payouts)
  }

  ghost predicate DistinctUsers(rows: seq<Totals>) { forall i, j | 0 <= i < j < |rows| :: rows[i].userId != rows[j].userId }

  ghost predicate HasUser(rows: seq<Totals>, user: Uuid) { exists i :: 0 <= i < |rows| && rows[i].userId == user }

  lemma {:induction false} AccumulateTouchesOne(rows: seq<Totals>, r: ArenaResult, payouts: Payouts)
    requires DistinctUsers(rows)
    ensures var after := Accumulate(rows, r, payouts);
            && |rows| <= |after| <= |rows| + 1
            && (forall i | 0 <= i < |rows| :: after[i] == if rows[i].userId == r.userId then AddResult(rows[i], r) else rows[i])
            && (|after| == |rows| + 1 <==> !HasUser(rows, r.userId))
            && (|after| == |rows| + 1 ==> after[|rows|] == AddResult(Fresh(r.userId, payouts), r))
  {
    if rows != [] {
      if rows[0].userId == r.userId {
        assert HasUser(rows, r.userId);
      } else {
        AccumulateTouchesOne(rows[1..], r, payouts);
        if HasUser(rows, r.userId) {
          var i :| 0 <= i < |rows| && rows[i].userId == r.userId;
          assert rows[1..][i - 1] == rows[i];
        }
        if HasUser(rows[1..], r.userId) {
          var i :| 0 <= i < |rows| - 1 && rows[1..][i].userId == r.userId;
          assert rows[i + 1].userId == r.userId;
        }
      }
    }
  }

  /** One row for each player, holding that player's totals. */
  ghost predicate RowsAre(rows: seq<Totals>, results: seq<ArenaResult>, payouts: Payouts) {
    && DistinctUsers(rows)
    && (forall i | 0 <= i < |rows| :: rows[i] == TotalsOf(results, rows[i].userId, payouts))
    && (forall u :: HasUser(rows, u) <==> Played(results, u))
  }

  lemma PlayedOneMore(results: seq<ArenaResult>, user: Uuid)
    requires results != []
    ensures Played(results, user) <==> Played(results[..|results| - 1], user) || results[|results| - 1].userId == user
  {
    var shorter := results[..|results| - 1];
    if Played(shorter, user) {
      var i :| 0 <= i < |shorter| && shorter[i].userId == user;
      assert results[i].userId == user;
    }
    if Played(results, user) {
      var i :| 0 <= i < |results| && results[i].userId == user;
      if i < |shorter| { assert shorter[i].userId == user; }
    }
  }

  lemma {:induction false} NotPlayedIsFresh(results: seq<ArenaResult>, user: Uuid, payouts: Payouts)
    requires !Played(results, user)
    ensures TotalsOf(results, user, payouts) == Fresh(user, payouts)
  {
    if results != [] {
      PlayedOneMore(results, user);
      NotPlayedIsFresh(results[..|results| - 1], user, payouts);
    }
  }

  lemma AccumulateKeepsRows(rows: seq<Totals>, results: seq<ArenaResult>, payouts: Payouts)
    requires results != [] && RowsAre(rows, results[..|results| - 1], payouts)
    ensures RowsAre(Accumulate(rows, results[|results| - 1], payouts), results, payouts)
  {
    var shorter, r := results[..|results| - 1], results[|results| - 1];
    var after := Accumulate(rows, r, payouts);
    AccumulateTouchesOne(rows, r, payouts);
    if !Played(shorter, r.userId) { NotPlayedIsFresh(shorter, r.userId, payouts); }
    assert HasUser(rows, r.userId) <==> Played(shorter, r.userId);
    assert forall i | 0 <= i < |rows| :: after[i].userId == rows[i].userId;
    forall u ensures HasUser(after, u) <==> Played(results, u) {
      PlayedOneMore(results, u);
      if HasUser(rows, u) {
        var i :| 0 <= i < |rows| && rows[i].userId == u;
        assert after[i].userId == u;
      }
      if HasUser(after, u) && u != r.userId {
        var i :| 0 <= i < |after| && after[i].userId == u;
        assert rows[i].userId == u;
      }
      if u == r.userId {
        if |after| == |rows| + 1 { assert after[|rows|].userId == u; }
      }
    }
  }

  lemma {:induction false} AllTotalsAre(results: seq<ArenaResult>, payouts: Payouts)
    ensures RowsAre(AllTotals(results, payouts), results, payouts)
  {
    if results != [] {
      AllTotalsAre(results[..|results| - 1], payouts);
      AccumulateKeepsRows(AllTotals(results[..|results| - 1], payouts), results, payouts);
    }
  }

  // ----- sorting

  function Insert(x: Totals, rows: seq<Totals>): (sorted: seq<Totals>)
    ensures |sorted| == |rows| + 1
  {
    if rows == [] || Before(x, rows[0]) then [x] + rows else [rows[0]] + Insert(x, rows[1..])
  }

  function Sort(rows: seq<Totals>): (sorted: seq<Totals>)
    ensures |sorted| == |rows|
  {
    if rows == [] then [] else Insert(rows[0], Sort(rows[1..]))
  }

  ghost predicate Sorted(rows: seq<Totals>) { forall i, j | 0 <= i < j < |rows| :: Before(rows[i], rows[j]) }

  lemma {:induction false} InsertMembers(x: Totals, rows: seq<Totals>)
    ensures multiset(Insert(x, rows)) == multiset(rows) + multiset{x}
  {
    if rows != [] && !Before(x, rows[0]) {
      InsertMembers(x, rows[1..]);
      assert rows == [rows[0]] + rows[1..];
    }
  }

  lemma {:induction false} InsertSorts(x: Totals, rows: seq<Totals>)
    requires Sorted(rows) && forall i | 0 <= i < |rows| :: rows[i].userId != x.userId
    ensures Sorted(Insert(x, rows))
  {
    if rows != [] {
      if Before(x, rows[0]) {
        forall i | 0 < i < |rows| ensures Before(x, rows[i]) { BeforeIsTransitive(x, rows[0], rows[i]); }
      } else {
        InsertSorts(x, rows[1..]);
        InsertMembers(x, rows[1..]);
        var rest := Insert(x, rows[1..]);
        forall i | 0 <= i < |rest| ensures Before(rows[0], rest[i]) {
          assert rest[i] in multiset(rest);
          assert rest[i] == x || rest[i] in rows[1..];
        }
      }
    }
  }

  lemma {:induction false} SortSorts(rows: seq<Totals>)
    requires DistinctUsers(rows)
    ensures Sorted(Sort(rows)) && multiset(Sort(rows)) == multiset(rows)
  {
    if rows != [] {
      var first, rest := rows[0], rows[1..];
      SortSorts(rest);
      forall i | 0 <= i < |rest| ensures Sort(rest)[i].userId != first.userId {
        assert Sort(rest)[i] in multiset(Sort(rest));
        assert Sort(rest)[i] in rest;
      }
      InsertSorts(first, Sort(rest));
      InsertMembers(first, Sort(rest));
      assert rows == [first] + rest;
    }
  }

  // ----- ranks

  /** Competition ranks along a sorted list: a full tie shares its rank, the next one skips. */
  function RankAt(sorted: seq<Totals>, i: nat): int
    requires i < |sorted|
  {
    if i == 0 || Compare(sorted[i - 1], sorted[i]) != 0 then i + 1 else RankAt(sorted, i - 1)
  }

  function Ranked(sorted: seq<Totals>): seq<Ranking> {
    seq(|sorted|, i requires 0 <= i < |sorted| => Ranking(sorted[i], RankAt(sorted, i)))
  }

  function RankPlayersSpec(results: seq<ArenaResult>, payouts: Payouts): seq<Ranking> {
    Ranked(Sort(AllTotals(results, payouts)))
  }

  method RankPlayers(results: seq<ArenaResult>, payouts: Payouts) returns (ranking: seq<Ranking>)
    ensures ranking == RankPlayersSpec(results, payouts)
  {
    var totals: seq<Totals> := [];
    for i := 0 to |results|
      invariant totals == AllTotals(results[..i], payouts)
    {
      assert results[..i + 1][..i] == results[..i];
      totals := Accumulate(totals, results[i], payouts);
    }
    assert results[..|results|] == results;
    var sorted, rank := Sort(totals), 0;
    ranking := [];
    for index := 0 to |sorted|
      invariant ranking == Ranked(sorted)[..index]
      invariant index > 0 ==> rank == RankAt(sorted, index - 1)
    {
      if index == 0 || Compare(sorted[index - 1], sorted[index]) != 0 { rank := index + 1; }
      ranking := ranking + [Ranking(sorted[index], rank)];
    }
  }

  /** The players of a list who are strictly better than `t`. */
  function CountBetter(rows: seq<Totals>, t: Totals): nat {
    if rows == [] then 0
    else CountBetter(rows[..|rows| - 1], t) + if Better(rows[|rows| - 1], t) then 1 else 0
  }

  lemma {:induction false} CountOfPrefix(rows: seq<Totals>, t: Totals, k: nat)
    requires k <= |rows|
    requires forall i | 0 <= i < |rows| :: Better(rows[i], t) <==> i < k
    ensures CountBetter(rows, t) == k
  {
    if rows != [] {
      var n := |rows| - 1;
      CountOfPrefix(rows[..n], t, if k <= n then k else n);
    }
  }

  lemma {:induction false} TieBeginsAt(sorted: seq<Totals>, i: nat)
    requires Sorted(sorted) && i < |sorted|
    ensures 1 <= RankAt(sorted, i) <= i + 1
    ensures forall j | 0 <= j < |sorted| :: Better(sorted[j], sorted[i]) <==> j < RankAt(sorted, i) - 1
  {
    if i > 0 && Compare(sorted[i - 1], sorted[i]) == 0 {
      TieBeginsAt(sorted, i - 1);
    } else {
      forall j | 0 <= j < |sorted| ensures Better(sorted[j], sorted[i]) <==> j < i {
        if j < i {
          assert i > 0 && Before(sorted[i - 1], sorted[i]);
          if j < i - 1 { assert Before(sorted[j], sorted[i - 1]); }
        } else if j > i {
          assert Before(sorted[i], sorted[j]);
        }
      }
    }
  }

  /** A player's rank is one more than the number of players who are strictly better. */
  lemma RankCountsTheBetter(results: seq<ArenaResult>, payouts: Payouts, i: nat)
    requires i < |RankPlayersSpec(results, payouts)|
    ensures var row := RankPlayersSpec(results, payouts)[i];
            row.rank == 1 + CountBetter(Sort(AllTotals(results, payouts)), row.totals)
  {
    var sorted := Sort(AllTotals(results, payouts));
    AllTotalsAre(results, payouts);
    SortSorts(AllTotals(results, payouts));
    TieBeginsAt(sorted, i);
    CountOfPrefix(sorted, sorted[i], RankAt(sorted, i) - 1);
  }

  // ----- the order of the results does not matter

  function AddIf(t: Totals, r: ArenaResult): Totals { if r.userId == t.userId then AddResult(t, r) else t }

  lemma {:induction false} AddedAnywhere(left: seq<ArenaResult>, r: ArenaResult, right: seq<ArenaResult>, u: Uuid, payouts: Payouts)
    ensures TotalsOf(left + [r] + right, u, payouts) == AddIf(TotalsOf(left + right, u, payouts), r)
  {
    if right == [] {
      assert left + [r] + right == left + [r] && left + right == left;
      assert (left + [r])[..|left|] == left;
    } else {
      var shorter, last := right[..|right| - 1], right[|right| - 1];
      AddedAnywhere(left, r, shorter, u, payouts);
      TotalsSnoc(left + [r] + shorter, last, u, payouts);
      TotalsSnoc(left + shorter, last, u, payouts);
      Regroup(left + [r], right);
      Regroup(left, right);
    }
  }

  lemma TotalsSnoc(results: seq<ArenaResult>, r: ArenaResult, u: Uuid, payouts: Payouts)
    ensures TotalsOf(results + [r], u, payouts) == AddIf(TotalsOf(results, u, payouts), r)
  {
    assert (results + [r])[..|results|] == results;
  }

  lemma Regroup(left: seq<ArenaResult>, right: seq<ArenaResult>)
    requires right != []
    ensures left + right == left + right[..|right| - 1] + [right[|right| - 1]]
  {
  }

  /** Takes the last result of `a` out of its permutation `b`. */
  lemma TakenOut(a: seq<ArenaResult>, b: seq<ArenaResult>) returns (i: nat)
    requires a != [] && multiset(a) == multiset(b)
    ensures i < |b| && b == b[..i] + [a[|a| - 1]] + b[i + 1..]
    ensures multiset(a[..|a| - 1]) == multiset(b[..i] + b[i + 1..])
  {
    var last := a[|a| - 1];
    assert a == a[..|a| - 1] + [last];
    assert last in multiset(b);
    i :| 0 <= i < |b| && b[i] == last;
    assert b == b[..i] + [last] + b[i + 1..];
    assert multiset(b) == multiset(b[..i] + b[i + 1..]) + multiset{last};
    assert multiset(a) == multiset(a[..|a| - 1]) + multiset{last};
    assert multiset(a[..|a| - 1]) == multiset(a) - multiset{last};
  }

  lemma {:induction false} TotalsIgnoreOrder(a: seq<ArenaResult>, b: seq<ArenaResult>, u: Uuid, payouts: Payouts)
    requires multiset(a) == multiset(b)
    ensures TotalsOf(a, u, payouts) == TotalsOf(b, u, payouts) && (Played(a, u) <==> Played(b, u))
    decreases a
  {
    PlayedByMembers(a, u);
    PlayedByMembers(b, u);
    if a == [] {
      assert multiset(b) == multiset{};
      assert b == [];
    } else {
      var i := TakenOut(a, b);
      TotalsIgnoreOrder(a[..|a| - 1], b[..i] + b[i + 1..], u, payouts);
      AddedAnywhere(b[..i], a[|a| - 1], b[i + 1..], u, payouts);
    }
  }

  lemma PlayedByMembers(results: seq<ArenaResult>, u: Uuid)
    ensures Played(results, u) <==> exists r | r in multiset(results) :: r.userId == u
  {
    if Played(results, u) {
      var i :| 0 <= i < |results| && results[i].userId == u;
      assert results[i] in multiset(results);
    }
    if r :| r in multiset(results) && r.userId == u {
      var i :| 0 <= i < |results| && results[i] == r;
      assert results[i].userId == u;
    }
  }

  lemma {:induction false} SortedIsUnique(s: seq<Totals>, t: seq<Totals>)
    requires Sorted(s) && Sorted(t) && forall x :: x in s <==> x in t
    ensures s == t
  {
    if s == [] {
      HasMember(t);
    } else {
      assert s[0] in t && t[0] in s;
      assert s[0] == t[0];
      forall x ensures x in s[1..] <==> x in t[1..] {
        InTheRest(s, x);
        InTheRest(t, x);
      }
      SortedIsUnique(s[1..], t[1..]);
    }
  }

  lemma HasMember(s: seq<Totals>)
    ensures s != [] ==> exists x :: x in s
  {
    if s != [] { assert s[0] in s; }
  }

  lemma InTheRest(s: seq<Totals>, x: Totals)
    requires s != [] && Sorted(s)
    ensures x in s[1..] <==> x in s && x != s[0]
  {
    if x in s[1..] {
      var i :| 0 <= i < |s| - 1 && s[1..][i] == x;
      assert Before(s[0], s[i + 1]);
    }
  }

  lemma SameRows(a: seq<ArenaResult>, b: seq<ArenaResult>, payouts: Payouts, x: Totals)
    requires multiset(a) == multiset(b) && x in AllTotals(a, payouts)
    ensures x in AllTotals(b, payouts)
  {
    AllTotalsAre(a, payouts);
    AllTotalsAre(b, payouts);
    TotalsIgnoreOrder(a, b, x.userId, payouts);
    var i :| 0 <= i < |AllTotals(a, payouts)| && AllTotals(a, payouts)[i] == x;
    assert HasUser(AllTotals(a, payouts), x.userId);
    assert HasUser(AllTotals(b, payouts), x.userId);
    var j :| 0 <= j < |AllTotals(b, payouts)| && AllTotals(b, payouts)[j].userId == x.userId;
  }

  /** Any permutation of the results gives the same ranking, rows, order and ranks. */
  lemma RankingIgnoresTheOrder(a: seq<ArenaResult>, b: seq<ArenaResult>, payouts: Payouts)
    requires multiset(a) == multiset(b)
    ensures RankPlayersSpec(a, payouts) == RankPlayersSpec(b, payouts)
  {
    AllTotalsAre(a, payouts);
    AllTotalsAre(b, payouts);
    SortSorts(AllTotals(a, payouts));
    SortSorts(AllTotals(b, payouts));
    forall x ensures x in Sort(AllTotals(a, payouts)) <==> x in Sort(AllTotals(b, payouts)) {
      SortMembers(AllTotals(a, payouts), x);
      SortMembers(AllTotals(b, payouts), x);
      if x in AllTotals(a, payouts) { SameRows(a, b, payouts, x); }
      if x in AllTotals(b, payouts) { SameRows(b, a, payouts, x); }
    }
    SortedIsUnique(Sort(AllTotals(a, payouts)), Sort(AllTotals(b, payouts)));
  }

  lemma SortMembers(rows: seq<Totals>, x: Totals)
    requires multiset(Sort(rows)) == multiset(rows)
    ensures x in Sort(rows) <==> x in rows
  {
    assert x in Sort(rows) <==> x in multiset(Sort(rows));
    assert x in rows <==> x in multiset(rows);
  }

  // ----- nothing is lost or made up

  /** Points, arenas and rounds of all rows. */
  function SumOfRows(rows: seq<Totals>): (int, int, int) {
    if rows == [] then (0, 0, 0)
    else
      var rest := SumOfRows(rows[1..]);
      (rows[0].points + rest.0, rows[0].arenasPlayed + rest.1, rows[0].roundsPlayed + rest.2)
  }

  function SumOfResults(results: seq<ArenaResult>): (int, int, int) {
    if results == [] then (0, 0, 0)
    else
      var before, last := SumOfResults(results[..|results| - 1]), results[|results| - 1];
      (before.0 + last.score, before.1 + 1, before.2 + last.roundsPlayed)
  }

  lemma {:induction false} AccumulateAdds(rows: seq<Totals>, r: ArenaResult, payouts: Payouts)
    ensures var sum := SumOfRows(rows);
            SumOfRows(Accumulate(rows, r, payouts)) == (sum.0 + r.score, sum.1 + 1, sum.2 + r.roundsPlayed)
  {
    if rows != [] && rows[0].userId != r.userId { AccumulateAdds(rows[1..], r, payouts); }
  }

  lemma {:induction false} InsertAdds(x: Totals, rows: seq<Totals>)
    ensures SumOfRows(Insert(x, rows)) == SumOfRows([x] + rows)
  {
    assert ([x] + rows)[1..] == rows;
    if rows != [] && !Before(x, rows[0]) {
      InsertAdds(x, rows[1..]);
      assert ([x] + rows[1..])[1..] == rows[1..];
    }
  }

  lemma {:induction false} SortKeepsSums(rows: seq<Totals>)
    ensures SumOfRows(Sort(rows)) == SumOfRows(rows)
  {
    if rows != [] {
      SortKeepsSums(rows[1..]);
      InsertAdds(rows[0], Sort(rows[1..]));
      assert ([rows[0]] + Sort(rows[1..]))[1..] == Sort(rows[1..]);
    }
  }

  lemma {:induction false} TotalsKeepSums(results: seq<ArenaResult>, payouts: Payouts)
    ensures SumOfRows(AllTotals(results, payouts)) == SumOfResults(results)
  {
    if results != [] {
      TotalsKeepSums(results[..|results| - 1], payouts);
      AccumulateAdds(AllTotals(results[..|results| - 1], payouts), results[|results| - 1], payouts);
    }
  }

  /** The ranking's points, arenas and rounds are those of the results. */
  lemma RankingConserves(results: seq<ArenaResult>, payouts: Payouts)
    ensures var ranking := RankPlayersSpec(results, payouts);
            SumOfRows(seq(|ranking|, i requires 0 <= i < |ranking| => ranking[i].totals)) == SumOfResults(results)
  {
    var sorted, ranking := Sort(AllTotals(results, payouts)), RankPlayersSpec(results, payouts);
    assert seq(|ranking|, i requires 0 <= i < |ranking| => ranking[i].totals) == sorted;
    SortKeepsSums(AllTotals(results, payouts));
    TotalsKeepSums(results, payouts);
  }

  /** Each player of the results has one row, holding their totals; a better player stands above. */
  lemma RankingHasEveryPlayerOnce(results: seq<ArenaResult>, payouts: Payouts, u: Uuid)
    ensures var ranking := RankPlayersSpec(results, payouts);
            && (Played(results, u) <==> exists i :: 0 <= i < |ranking| && ranking[i].totals == TotalsOf(results, u, payouts))
            && (forall i, j | 0 <= i < j < |ranking| ::
                  Before(ranking[i].totals, ranking[j].totals) && ranking[i].totals.userId != ranking[j].totals.userId)
  {
    var all := AllTotals(results, payouts);
    var sorted := Sort(all);
    AllTotalsAre(results, payouts);
    SortSorts(all);
    forall i, j | 0 <= i < j < |sorted| ensures sorted[i].userId != sorted[j].userId {
      SortMembers(all, sorted[i]);
      SortMembers(all, sorted[j]);
      assert Before(sorted[i], sorted[j]);
      var a :| 0 <= a < |all| && all[a] == sorted[i];
      var b :| 0 <= b < |all| && all[b] == sorted[j];
    }
    SortMembers(all, TotalsOf(results, u, payouts));
    var ranking := RankPlayersSpec(results, payouts);
    if Played(results, u) {
      assert HasUser(all, u);
      var i :| 0 <= i < |all| && all[i].userId == u;
      var k :| 0 <= k < |sorted| && sorted[k] == all[i];
      assert ranking[k].totals == TotalsOf(results, u, payouts);
    }
    if k :| 0 <= k < |ranking| && ranking[k].totals == TotalsOf(results, u, payouts) {
      assert sorted[k] in sorted;
      var i :| 0 <= i < |all| && all[i] == sorted[k];
      assert HasUser(all, u);
    }
  }
}

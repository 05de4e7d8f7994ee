/** What one settlement does to the players of an arena. */
module ArenaFairness {
  import opened Cs2Types
  import opened RoundEngine
  import opened RoundOutcome
  import opened Leaderboard
  import opened ArenaModel

  /** The player store and the leaderboard agree on every player the leaderboard knows. */
  ghost predicate Seated(a: Arena) {
    && NoDuplicates(a.seats) && (forall u :: u in a.seats <==> u in a.status)
    && WellFormed(a.board)
    && a.board.rows.Keys <= a.status.Keys
    && (forall u | u in a.board.rows :: a.status[u] == a.board.rows[u].status)
  }

  /** Hardcore rules apply: from the start in hardcore, from Final Circle on in classic. */
  predicate LevelStage(a: Arena) { a.mode.Hardcore? || a.finalCircleFrom.Some? }

  ghost predicate NoneAhead(rows: map<Uuid, Row>) {
    forall u, v | u in rows && v in rows && rows[u].status.Eliminated? && rows[v].status.Active? ::
      rows[u].score <= rows[v].score
  }

  ghost predicate LevelRows(rows: map<Uuid, Row>) {
    forall u, v | u in rows && v in rows && rows[u].status.Active? && rows[v].status.Active? :: rows[u].score == rows[v].score
  }

  ghost predicate FairField(a: Arena) {
    NoneAhead(a.board.rows) && (LevelStage(a) ==> LevelRows(a.board.rows))
  }

  /** Nobody has won yet, and whoever joined is on the leaderboard. */
  ghost predicate Undecided(a: Arena) {
    && Seated(a)
    && !a.board.finished && a.winners.None? && a.finishCalls == []
    && a.board.rows.Keys == a.status.Keys
    && (forall u | u in a.board.rows :: !a.board.rows[u].status.Winner?)
    && (a.board.rows != map[] ==> exists u :: u in a.board.rows && a.board.rows[u].status.Active?)
  }

  lemma {:induction false} ActiveSeatsMeans(status: map<Uuid, PlayerStatus>, seats: seq<Uuid>)
    ensures forall u :: u in ActiveSeats(status, seats) <==> u in seats && u in status && status[u].Active?
    ensures NoDuplicates(seats) ==> NoDuplicates(ActiveSeats(status, seats))
  {
    if seats != [] {
      var shorter, last := seats[..|seats| - 1], seats[|seats| - 1];
      ActiveSeatsMeans(status, shorter);
      assert seats == shorter + [last];
    }
  }

  lemma {:induction false} SetStatusesPointwise(status: map<Uuid, PlayerStatus>, results: seq<PlayerResult>)
    requires DistinctPlayers(results)
    requires forall i | 0 <= i < |results| :: results[i].userId in status
    ensures var s := SetStatuses(status, results);
            && s.Keys == status.Keys
            && (forall i | 0 <= i < |results| :: s[results[i].userId] == results[i].status)
            && (forall u | u in status && (forall i | 0 <= i < |results| :: results[i].userId != u) :: s[u] == status[u])
  {
    if results != [] { SetStatusesPointwise(status, results[..|results| - 1]); }
  }

  /** The outcome `o` lists the active players `ids` of `rows` once each, judged from their scores. */
  ghost predicate Lists(rows: map<Uuid, Row>, ids: seq<Uuid>, players: seq<Contender>, o: Outcome) {
    && NoDuplicates(ids)
    && |o.results| == |players| == |ids|
    && (forall u | u in rows :: rows[u].status.Active? <==> u in ids)
    && (forall i | 0 <= i < |ids| ::
          && ids[i] in rows && players[i] == Contender(ids[i], rows[ids[i]].score)
          && o.results[i].userId == ids[i] && !o.results[i].status.Winner?)
  }

  /**
   * Only active players are touched: everyone else keeps their row, so an eliminated player's score
   * is frozen; the store and the leaderboard still agree.
   */
  lemma {:induction false} OnlyActivePlayersChange(
    rows: map<Uuid, Row>, status: map<Uuid, PlayerStatus>, ids: seq<Uuid>, players: seq<Contender>, o: Outcome, n: int)
    requires Lists(rows, ids, players, o)
    requires rows.Keys == status.Keys && forall u | u in rows :: status[u] == rows[u].status
    ensures var after, now := ApplyResults(rows, o.results, n), SetStatuses(status, o.results);
            && after.Keys == now.Keys == rows.Keys
            && (forall u | u in rows && u !in ids :: after[u] == rows[u] && now[u] == rows[u].status)
            && (forall i | 0 <= i < |ids| ::
                  after[ids[i]] == ApplyResult(rows[ids[i]], o.results[i], n) && now[ids[i]] == o.results[i].status)
  {
    assert DistinctPlayers(o.results);
    ApplyResultsPointwise(rows, o.results, n);
    SetStatusesPointwise(status, o.results);
    forall u | u in rows && u !in ids ensures forall i | 0 <= i < |o.results| :: o.results[i].userId != u {
    }
    forall i | 0 <= i < |ids|
      ensures ApplyResults(rows, o.results, n)[ids[i]] == ApplyResult(rows[ids[i]], o.results[i], n)
      ensures SetStatuses(status, o.results)[ids[i]] == o.results[i].status
    {
      assert o.results[i].userId == ids[i];
    }
  }

  /** `after` holds the listed players' results and leaves every other row alone. */
  ghost predicate Applied(rows: map<Uuid, Row>, ids: seq<Uuid>, o: Outcome, n: int, after: map<Uuid, Row>)
    requires |o.results| == |ids|
  {
    && after.Keys == rows.Keys
    && (forall u | u in rows && u !in ids :: after[u] == rows[u])
    && (forall i | 0 <= i < |ids| && ids[i] in rows :: after[ids[i]] == ApplyResult(rows[ids[i]], o.results[i], n))
  }

  /** No eliminated player gets ahead of an active one. */
  lemma {:induction false} NobodyGetsAhead(
    rows: map<Uuid, Row>, ids: seq<Uuid>, players: seq<Contender>, o: Outcome, n: int, after: map<Uuid, Row>)
    requires Lists(rows, ids, players, o) && Applied(rows, ids, o, n, after)
    requires NoneAhead(rows) && Fair(players, o)
    requires forall u | u in rows :: !rows[u].status.Winner?
    ensures NoneAhead(after)
  {
    forall u, v | u in after && v in after && after[u].status.Eliminated? && after[v].status.Active?
      ensures after[u].score <= after[v].score
    {
      assert v in ids;
      var j :| 0 <= j < |ids| && ids[j] == v;
      assert after[v].score == ScoreAfter(players, o, j);
      if u in ids {
        var i :| 0 <= i < |ids| && ids[i] == u;
        assert after[u].score == ScoreAfter(players, o, i);
      } else {
        assert rows[u].score <= rows[v].score;
      }
    }
  }

  lemma {:induction false} SurvivorsStayLevel(
    rows: map<Uuid, Row>, ids: seq<Uuid>, players: seq<Contender>, o: Outcome, n: int, after: map<Uuid, Row>)
    requires Lists(rows, ids, players, o) && Applied(rows, ids, o, n, after)
    requires LevelField(players, o)
    ensures LevelRows(after)
  {
    forall u, v | u in after && v in after && after[u].status.Active? && after[v].status.Active?
      ensures after[u].score == after[v].score
    {
      assert u in ids && v in ids;
      var i :| 0 <= i < |ids| && ids[i] == u;
      var j :| 0 <= j < |ids| && ids[j] == v;
      assert after[u].score == ScoreAfter(players, o, i) && after[v].score == ScoreAfter(players, o, j);
    }
  }

  // ----- the outcome the runtime asks for

  lemma {:induction false} ActiveSeatsOf(a: Arena)
    requires Undecided(a)
    ensures var ids := ActiveSeats(a.status, a.seats);
            && NoDuplicates(ids)
            && (forall u | u in a.board.rows :: a.board.rows[u].status.Active? <==> u in ids)
            && (forall i | 0 <= i < |ids| :: ids[i] in a.board.rows)
  {
    ActiveSeatsMeans(a.status, a.seats);
    var ids := ActiveSeats(a.status, a.seats);
    forall i | 0 <= i < |ids| ensures ids[i] in a.board.rows {
      assert ids[i] in ids;
    }
  }

  lemma {:induction false} ContendersAreActive(a: Arena)
    requires Undecided(a)
    ensures var ids, players := ActiveSeats(a.status, a.seats), Contenders(a);
            && Ids(players) == ids
            && (forall i | 0 <= i < |ids| :: ids[i] in a.board.rows && players[i] == Contender(ids[i], a.board.rows[ids[i]].score))
  {
    ActiveSeatsOf(a);
    assert Ids(Contenders(a)) == ActiveSeats(a.status, a.seats);
  }

  /** Every mode and stage lists the contenders in order and makes nobody a winner. */
  lemma {:induction false} OutcomeNames(a: Arena, n: int, correct: Answer)
    requires Ids(Contenders(a)) == ActiveSeats(a.status, a.seats)
    ensures var o, players := OutcomeOf(a, n, correct), Contenders(a);
            && |o.results| == |players|
            && forall i | 0 <= i < |players| :: o.results[i].userId == players[i].userId && !o.results[i].status.Winner?
  {
    if a.mode.Classic? && StageOf(a).ZoneStage? {
      ZoneRoundIsFair(n, Contenders(a), AnswersFor(a, n), correct);
    }
  }

  lemma {:induction false} OutcomeLists(a: Arena, n: int, correct: Answer)
    requires Undecided(a)
    ensures Lists(a.board.rows, ActiveSeats(a.status, a.seats), Contenders(a), OutcomeOf(a, n, correct))
  {
    ActiveSeatsOf(a);
    ContendersAreActive(a);
    OutcomeNames(a, n, correct);
  }

  lemma {:induction false} LevelContenders(a: Arena)
    requires Undecided(a) && LevelRows(a.board.rows)
    ensures AllEqual(Contenders(a))
  {
    ContendersAreActive(a);
    ActiveSeatsOf(a);
    var ids := ActiveSeats(a.status, a.seats);
    assert forall i | 0 <= i < |ids| :: ids[i] in ids;
  }

  lemma {:induction false} OutcomeIsFair(a: Arena, n: int, correct: Answer)
    requires Undecided(a) && FairField(a)
    ensures FairOutcome(a, OutcomeOf(a, n, correct))
  {
    if LevelStage(a) {
      LevelContenders(a);
      ContendersAreActive(a);
      HardcoreOutcomeIsFair(Contenders(a), AnswersFor(a, n), correct);
    } else {
      ZoneRoundIsFair(n, Contenders(a), AnswersFor(a, n), correct);
    }
  }

  lemma HardcoreOutcomeIsFair(players: seq<Contender>, answers: Answers, correct: Answer)
    requires AllEqual(players)
    ensures FairFor(players, HardcoreRound(Ids(players), answers, correct, true), true)
  {
    HardcoreRoundIsFair(players, answers, correct);
  }

  /** What is true of the outcome `o` the runtime asks for, in every mode and stage. */
  ghost predicate FairOutcome(a: Arena, o: Outcome) {
    FairFor(Contenders(a), o, LevelStage(a))
  }

  ghost predicate FairFor(players: seq<Contender>, o: Outcome, level: bool) {
    && Fair(players, o)
    && (level || o.stage.FinalCircle? ==> LevelField(players, o))
    && (NobodyLeft(o) && players != [] ==> level && forall i | 0 <= i < |players| :: o.results[i].points == 0)
  }

  /** When a round removes everybody, nobody had scored in it, and all of them were level. */
  lemma {:induction false} EverybodyOutMeansNoPoints(a: Arena, o: Outcome, ids: seq<Uuid>, n: int, after: map<Uuid, Row>)
    requires FairField(a) && FairOutcome(a, o)
    requires Lists(a.board.rows, ids, Contenders(a), o) && Applied(a.board.rows, ids, o, n, after) && ids != []
    requires forall u | u in after :: !after[u].status.Active?
    ensures LevelRows(a.board.rows)
    ensures forall u | u in after :: after[u].score == a.board.rows[u].score
  {
    forall i | 0 <= i < |o.results| ensures !o.results[i].status.Active? {
      assert ids[i] in after;
    }
    forall u | u in after ensures after[u].score == a.board.rows[u].score {
      if u in ids {
        var i :| 0 <= i < |ids| && ids[i] == u;
      }
    }
  }
}

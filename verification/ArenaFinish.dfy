/** How a settlement or a match end decides the winners of an arena. */
module ArenaFinish {
  import opened Cs2Types
  import opened RoundEngine
  import opened RoundOutcome
  import opened Leaderboard
  import opened ArenaModel
  import opened ArenaFairness

  /** The winners are exactly the rows marked so, nobody is left active, and somebody won if anybody joined. */
  ghost predicate Crowned(rows: map<Uuid, Row>, winners: seq<Uuid>) {
    && (forall u | u in rows :: rows[u].status.Winner? <==> u in winners)
    && (forall u | u in rows :: !rows[u].status.Active?)
    && (forall u | u in winners :: u in rows)
    && (rows != map[] ==> winners != [])
  }

  /** No loser has more points than a winner. */
  ghost predicate WinnersLead(rows: map<Uuid, Row>) {
    forall w, x | w in rows && x in rows && rows[w].status.Winner? && !rows[x].status.Winner? ::
      rows[x].score <= rows[w].score
  }

  /** The one stored result of every player: their score, their place by points, and whether they won. */
  ghost predicate StoredResults(rows: map<Uuid, Row>, call: FinishCall) {
    && call.results.Keys == rows.Keys
    && (forall u | u in rows ::
          && call.results[u].score == rows[u].score
          && call.results[u].rank == 1 + |Better(rows, rows[u].score)|
          && (call.results[u].won <==> u in call.winners))
  }

  ghost predicate Over(a: Arena) {
    && Seated(a)
    && a.board.finished && a.winners.Some?
    && Crowned(a.board.rows, a.winners.value)
    && |a.finishCalls| == 1 && a.finishCalls[0].winners == a.winners.value
    && StoredResults(a.board.rows, a.finishCalls[0])
  }

  /** `s` is about to be flushed: the leaderboard is finished, the store not yet updated for the winners. */
  ghost predicate AboutToFinish(s: Arena, winners: seq<Uuid>) {
    && NoDuplicates(s.seats) && (forall u :: u in s.seats <==> u in s.status)
    && WellFormed(s.board) && s.board.finished && s.finishCalls == []
    && s.board.rows.Keys == s.status.Keys
    && Crowned(s.board.rows, winners)
    && (forall u | u in s.board.rows && u !in winners :: s.status[u] == s.board.rows[u].status)
  }

  lemma {:induction false} SetWinnersPointwise(status: map<Uuid, PlayerStatus>, winners: seq<Uuid>)
    requires forall u | u in winners :: u in status
    ensures var s := SetWinners(status, winners);
            && s.Keys == status.Keys
            && (forall u | u in status :: s[u] == if u in winners then Winner else status[u])
  {
    if winners != [] {
      var shorter := winners[..|winners| - 1];
      assert winners == shorter + [winners[|winners| - 1]];
      SetWinnersPointwise(status, shorter);
    }
  }

  lemma {:induction false} FlushDecides(s: Arena, winners: seq<Uuid>)
    requires AboutToFinish(s, winners)
    ensures Over(FlushFinish(s, winners))
  {
    SetWinnersPointwise(s.status, winners);
  }

  lemma {:induction false} CrownMeans(rows: map<Uuid, Row>, finalists: seq<Uuid>)
    requires finalists != [] && forall u | u in finalists :: u in rows
    requires forall u | u in rows :: !rows[u].status.Winner? && (rows[u].status.Active? ==> u in finalists)
    ensures Crowned(Crown(rows, finalists), finalists)
  {
  }

  lemma {:induction false} ActiveIdsMean(b: Board)
    requires WellFormed(b)
    ensures forall u :: u in ActiveIds(b) <==> u in b.rows && b.rows[u].status.Active?
    ensures NoDuplicates(ActiveIds(b))
  {
    ActiveAmongMeans(b.rows, b.order);
  }

  ghost predicate TwoLeft(rows: map<Uuid, Row>) {
    exists u, v :: u != v && u in rows && v in rows && rows[u].status.Active? && rows[v].status.Active?
  }

  /** The finish rule read from the rows before and after the results: either the last one standing wins, or all who stood before. */
  ghost predicate FinishedBy(before: map<Uuid, Row>, after: map<Uuid, Row>, winners: seq<Uuid>) {
    || (|winners| == 1 && forall u :: u in winners <==> u in after && after[u].status.Active?)
    || ((forall u | u in after :: !after[u].status.Active?)
        && (forall u :: u in winners <==> u in before && before[u].status.Active?))
  }

  lemma {:induction false} FinishRule(b: Board, results: seq<PlayerResult>, n: int)
    requires WellFormed(b) && !b.finished && results != []
    requires ApplyResults(b.rows, results, n).Keys == b.rows.Keys
    requires exists u :: u in b.rows && b.rows[u].status.Active?
    requires forall u | u in b.rows :: !ApplyResults(b.rows, results, n)[u].status.Winner?
    requires forall u | u in b.rows && !b.rows[u].status.Active? :: !ApplyResults(b.rows, results, n)[u].status.Active?
    ensures var after, (board, pending) := ApplyResults(b.rows, results, n), SettleBoard(b, results, n);
            match pending
            case None => board == b.(rows := after) && TwoLeft(after)
            case Some(w) =>
              board == b.(rows := Crown(after, w), finished := true) && Crowned(board.rows, w) && FinishedBy(b.rows, after, w)
  {
    var after := ApplyResults(b.rows, results, n);
    var settled := b.(rows := after);
    ActiveIdsMean(b);
    ActiveIdsMean(settled);
    var active := ActiveIds(settled);
    if |active| == 0 {
      var u :| u in b.rows && b.rows[u].status.Active?;
      assert u in ActiveIds(b);
      assert forall v | v in after :: v !in active;
      CrownMeans(after, ActiveIds(b));
    } else {
      assert active[0] in active;
      if |active| == 1 { CrownMeans(after, active); }
      else { assert active[1] in active && active[0] != active[1]; }
    }
  }

  /** The rows and statuses after the outcome `o`, row by row. */
  lemma {:induction false} RowByRow(a: Arena, o: Outcome, ids: seq<Uuid>, n: int)
    requires Undecided(a) && Lists(a.board.rows, ids, Contenders(a), o)
    ensures var rows, after, now := a.board.rows, ApplyResults(a.board.rows, o.results, n), SetStatuses(a.status, o.results);
            && Applied(rows, ids, o, n, after)
            && now.Keys == rows.Keys
            && (forall u | u in rows :: now[u] == after[u].status && !after[u].status.Winner?)
            && (forall u | u in rows && !rows[u].status.Active? :: after[u] == rows[u])
            && (o.results != [] ==> exists u :: u in rows && rows[u].status.Active?)
  {
    OnlyActivePlayersChange(a.board.rows, a.status, ids, Contenders(a), o, n);
    forall u | u in a.board.rows
      ensures SetStatuses(a.status, o.results)[u] == ApplyResults(a.board.rows, o.results, n)[u].status
      ensures !ApplyResults(a.board.rows, o.results, n)[u].status.Winner?
    {
      if u in ids { var i :| 0 <= i < |ids| && ids[i] == u; }
    }
    if o.results != [] {
      assert ids[0] in ids && ids[0] in a.board.rows;
    }
  }

  lemma StaysUndecided(a: Arena, s: Arena)
    requires Undecided(a)
    requires s == a.(status := s.status, board := a.board.(rows := s.board.rows), finalCircleFrom := s.finalCircleFrom)
    requires s.status.Keys == s.board.rows.Keys == a.board.rows.Keys
    requires forall u | u in s.board.rows :: s.status[u] == s.board.rows[u].status && !s.board.rows[u].status.Winner?
    requires exists u :: u in s.board.rows && s.board.rows[u].status.Active?
    ensures Undecided(s)
  {
  }

  lemma BecomesReady(a: Arena, s: Arena, after: map<Uuid, Row>, winners: seq<Uuid>)
    requires Undecided(a)
    requires s.seats == a.seats && s.finishCalls == a.finishCalls
    requires s.board == a.board.(rows := Crown(after, winners), finished := true)
    requires s.status.Keys == after.Keys == a.board.rows.Keys && Crowned(s.board.rows, winners)
    requires forall u | u in after :: s.status[u] == after[u].status
    ensures AboutToFinish(s, winners)
  {
  }

  /** A settlement either leaves the arena undecided or makes it ready to finish. */
  lemma {:induction false} SettlementDecides(a: Arena, o: Outcome, ids: seq<Uuid>, n: int)
    requires Undecided(a) && Lists(a.board.rows, ids, Contenders(a), o) && o.results != []
    ensures var (s, pending) := ApplyOutcome(a, o, n);
            && (pending.None? ==> Undecided(s))
            && (pending.Some? ==> AboutToFinish(s, pending.value))
  {
    RowByRow(a, o, ids, n);
    FinishRule(a.board, o.results, n);
    var (s, pending) := ApplyOutcome(a, o, n);
    if pending.None? {
      StaysUndecided(a, s);
    } else {
      BecomesReady(a, s, ApplyResults(a.board.rows, o.results, n), pending.value);
    }
  }

  lemma {:induction false} CrownKeepsLead(before: map<Uuid, Row>, after: map<Uuid, Row>, winners: seq<Uuid>)
    requires before.Keys == after.Keys && FinishedBy(before, after, winners)
    requires forall u | u in after :: !before[u].status.Winner? && !after[u].status.Winner?
    requires NoneAhead(before) && NoneAhead(after)
    requires (forall u | u in after :: !after[u].status.Active?) ==>
               LevelRows(before) && forall u | u in after :: after[u].score == before[u].score
    ensures WinnersLead(Crown(after, winners))
  {
  }

  /** Fairness survives the settlement; if it decides the arena, the winners lead. */
  lemma {:induction false} SettlementDecidesFairly(a: Arena, o: Outcome, ids: seq<Uuid>, n: int)
    requires Undecided(a) && FairField(a) && o.results != []
    requires Lists(a.board.rows, ids, Contenders(a), o) && FairOutcome(a, o)
    ensures var (s, pending) := ApplyOutcome(a, o, n);
            if pending.None? then FairField(s) else WinnersLead(s.board.rows)
  {
    RowByRow(a, o, ids, n);
    var after := ApplyResults(a.board.rows, o.results, n);
    NobodyGetsAhead(a.board.rows, ids, Contenders(a), o, n, after);
    FinishRule(a.board, o.results, n);
    var (s, pending) := ApplyOutcome(a, o, n);
    if pending.None? {
      if LevelStage(a) || o.stage.FinalCircle? {
        SurvivorsStayLevel(a.board.rows, ids, Contenders(a), o, n, after);
      }
    } else {
      if forall u | u in after :: !after[u].status.Active? {
        EverybodyOutMeansNoPoints(a, o, ids, n, after);
      }
      CrownKeepsLead(a.board.rows, after, pending.value);
    }
  }

  /** A round nobody was judged in changes nobody. */
  lemma EmptyOutcome(a: Arena, o: Outcome, n: int)
    requires Undecided(a) && o.results == []
    ensures var (s, pending) := ApplyOutcome(a, o, n);
            pending.None? && s == a.(finalCircleFrom := s.finalCircleFrom)
  {
  }

  lemma {:induction false} FinalizeCrowns(b: Board)
    requires WellFormed(b) && forall u | u in b.rows :: !b.rows[u].status.Winner?
    requires b.rows != map[] ==> exists u :: u in b.rows && b.rows[u].status.Active?
    ensures var w := ActiveIds(b);
            Crowned(Crown(b.rows, w), w) && forall u :: u in w <==> u in b.rows && b.rows[u].status.Active?
  {
    ActiveIdsMean(b);
    if b.rows != map[] {
      var u :| u in b.rows && b.rows[u].status.Active?;
      assert u in ActiveIds(b);
      CrownMeans(b.rows, ActiveIds(b));
    }
  }

  /** At a match end everyone still standing wins. */
  lemma {:induction false} FinalizeDecides(a: Arena)
    requires Undecided(a)
    ensures Over(Finalize(a))
    ensures FairField(a) ==> WinnersLead(Finalize(a).board.rows)
  {
    FinalizeCrowns(a.board);
    FlushDecides(a.(board := FinalizeBoard(a.board).0), ActiveIds(a.board));
  }

  /** By points alone, no loser is placed ahead of a winner. */
  lemma {:induction false} NoLoserRanksAboveAWinner(a: Arena, w: Uuid, x: Uuid)
    requires Over(a) && WinnersLead(a.board.rows)
    requires w in a.board.rows && x in a.board.rows && w in a.winners.value && x !in a.winners.value
    ensures a.finishCalls[0].results[w].rank <= a.finishCalls[0].results[x].rank
  {
    var rows := a.board.rows;
    var ahead, aheadOfLoser := Better(rows, rows[w].score), Better(rows, rows[x].score);
    assert ahead <= aheadOfLoser;
    SubsetSize(ahead, aheadOfLoser);
  }

  lemma {:induction false} SubsetSize(small: set<Uuid>, large: set<Uuid>)
    requires small <= large
    ensures |small| <= |large|
  {
    assert large == small + (large - small);
  }
}

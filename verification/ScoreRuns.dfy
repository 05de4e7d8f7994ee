/** Where every point of an arena comes from, over all its runs, and what a player who is always right may count on. */
module ScoreRuns {
  import opened Cs2Types
  import opened Cs2Settle
  import opened RoundTracker
  import opened RoundEngine
  import RoundRuns
  import opened ClassicRules
  import opened RoundOutcome
  import opened Leaderboard
  import opened ArenaModel
  import opened ArenaFairness
  import opened ArenaFinish
  import opened ArenaRuns
  import opened ClassicPoints

  // ----- one settlement

  /** All that the settlement of round `n` looks at; `zone` tells whether the zone is still on. */
  datatype Field = Field(rows: map<Uuid, Row>, zone: bool, answers: Answers, n: int, correct: Answer)

  function FieldOf(a: Arena, n: int, correct: Answer): Field {
    Field(a.board.rows, a.mode == Classic && a.finalCircleFrom == None, if n in a.answers then a.answers[n] else map[], n, correct)
  }

  predicate Standing(f: Field, u: Uuid) { u in f.rows && f.rows[u].status == Active }

  /** What the settlement gives player `u`. */
  function Gain(f: Field, u: Uuid): nat {
    if Standing(f, u) then Earned(f.zone, f.n, f.answers, u, f.correct) else 0
  }

  function ScoreThen(f: Field, u: Uuid): nat
    requires u in f.rows
  {
    f.rows[u].score + Gain(f, u)
  }

  predicate IsAhead(f: Field, v: Uuid, u: Uuid) { Standing(f, v) && u in f.rows && ScoreThen(f, v) > ScoreThen(f, u) }

  predicate IsRight(f: Field, v: Uuid) { Standing(f, v) && Right(f.answers, v, f.correct) }

  /** Whom it removes: below the zone and behind somebody; or, with the zone off, not right although others were, or silent. */
  ghost predicate Falls(f: Field, u: Uuid) {
    && Standing(f, u)
    && if f.zone then ScoreThen(f, u) < ZoneAfter(f.n) && exists v :: IsAhead(f, v, u)
       else !Right(f.answers, u, f.correct) && (u !in f.answers || exists v :: IsRight(f, v))
  }

  ghost predicate Stays(f: Field, u: Uuid) { Standing(f, u) && !Falls(f, u) }

  /** The row of a player after the results, before anybody is crowned. */
  ghost predicate RowApplied(f: Field, u: Uuid, after: Row)
    requires u in f.rows
  {
    var before := f.rows[u];
    && after.score == ScoreThen(f, u)
    && after.missed == before.missed + (if Standing(f, u) && u !in f.answers then 1 else 0)
    && after.status == (if Falls(f, u) then Eliminated else before.status)
    && after.eliminatedRound == if Falls(f, u) then Some(f.n) else before.eliminatedRound
  }

  /** The row after the settlement: the last one left wins, or everybody who stood if nobody is left. */
  ghost predicate RowPaid(f: Field, u: Uuid, after: Row)
    requires u in f.rows
  {
    var before := f.rows[u];
    var won := Standing(f, u) && forall v | Stays(f, v) :: v == u;
    && after.score == ScoreThen(f, u)
    && after.missed == before.missed + (if Standing(f, u) && u !in f.answers then 1 else 0)
    && after.status == (if won then Winner else if Falls(f, u) then Eliminated else before.status)
    && after.eliminatedRound == if won then None else if Falls(f, u) then Some(f.n) else before.eliminatedRound
  }

  ghost predicate Settles(f: Field, rows: map<Uuid, Row>) {
    rows.Keys == f.rows.Keys && forall u | u in f.rows :: RowPaid(f, u, rows[u])
  }

  /** The outcome's result of a player who stands. */
  ghost predicate ResultIs(f: Field, u: Uuid, r: PlayerResult) {
    && r.userId == u && r.points == Gain(f, u) && (r.result == Missed <==> u !in f.answers)
    && r.status == if Falls(f, u) then Eliminated else Active
  }

  lemma ListedStand(f: Field, ids: seq<Uuid>, players: seq<Contender>, o: Outcome)
    requires Lists(f.rows, ids, players, o)
    ensures forall u :: Standing(f, u) ==> u in ids
    ensures forall j | 0 <= j < |ids| :: Standing(f, ids[j])
  {
    forall j | 0 <= j < |ids| ensures Standing(f, ids[j]) { assert ids[j] in ids; }
  }

  lemma SomebodyAhead(f: Field, ids: seq<Uuid>, players: seq<Contender>, o: Outcome, i: nat)
    requires Lists(f.rows, ids, players, o) && i < |ids| && f.zone
    ensures Reached(true, f.n, players, f.answers, f.correct, i) == ScoreThen(f, ids[i])
    ensures (exists j :: 0 <= j < |players| &&
               Reached(true, f.n, players, f.answers, f.correct, j) > Reached(true, f.n, players, f.answers, f.correct, i))
            <==> exists v :: IsAhead(f, v, ids[i])
  {
    ListedStand(f, ids, players, o);
    assert forall j | 0 <= j < |ids| :: Reached(true, f.n, players, f.answers, f.correct, j) == ScoreThen(f, ids[j]);
    if v :| IsAhead(f, v, ids[i]) {
      var j :| 0 <= j < |ids| && ids[j] == v;
      assert Reached(true, f.n, players, f.answers, f.correct, j) > Reached(true, f.n, players, f.answers, f.correct, i);
    }
    if j :| 0 <= j < |players| &&
            Reached(true, f.n, players, f.answers, f.correct, j) > Reached(true, f.n, players, f.answers, f.correct, i) {
      assert IsAhead(f, ids[j], ids[i]);
    }
  }

  lemma ZoneResultIs(f: Field, ids: seq<Uuid>, players: seq<Contender>, i: nat)
    requires f.zone && i < |ids|
    requires Lists(f.rows, ids, players, ResolveClassicRound(f.n, ZoneStage, players, f.answers, f.correct))
    ensures ResultIs(f, ids[i], ResolveClassicRound(f.n, ZoneStage, players, f.answers, f.correct).results[i])
  {
    var o := ResolveClassicRound(f.n, ZoneStage, players, f.answers, f.correct);
    ListedStand(f, ids, players, o);
    SomebodyAhead(f, ids, players, o, i);
    ResultMeans(f.n, ZoneStage, players, f.answers, f.correct, i);
    ZoneRemoves(f.n, players, f.answers, f.correct, i);
  }

  lemma HardcoreResultIs(f: Field, ids: seq<Uuid>, players: seq<Contender>, i: nat)
    requires !f.zone && i < |ids|
    requires Lists(f.rows, ids, players, HardcoreRound(ids, f.answers, f.correct, true))
    ensures ResultIs(f, ids[i], HardcoreRound(ids, f.answers, f.correct, true).results[i])
  {
    ListedStand(f, ids, players, HardcoreRound(ids, f.answers, f.correct, true));
    HardcoreRemoves(ids, f.answers, f.correct, i);
    if v :| IsRight(f, v) {
      var j :| 0 <= j < |ids| && ids[j] == v;
      assert Right(f.answers, ids[j], f.correct);
    }
    if j :| 0 <= j < |ids| && Right(f.answers, ids[j], f.correct) { assert IsRight(f, ids[j]); }
  }

  lemma ResultsAre(a: Arena, n: int, correct: Answer)
    requires Undecided(a)
    ensures var ids, o, f := ActiveSeats(a.status, a.seats), OutcomeOf(a, n, correct), FieldOf(a, n, correct);
            && Lists(f.rows, ids, Contenders(a), o)
            && forall i | 0 <= i < |ids| :: ResultIs(f, ids[i], o.results[i])
  {
    var ids, players, f := ActiveSeats(a.status, a.seats), Contenders(a), FieldOf(a, n, correct);
    OutcomeLists(a, n, correct);
    ContendersAreActive(a);
    forall i | 0 <= i < |ids| ensures ResultIs(f, ids[i], OutcomeOf(a, n, correct).results[i]) {
      if f.zone { ZoneResultIs(f, ids, players, i); } else { HardcoreResultIs(f, ids, players, i); }
    }
  }

  lemma RowsApplied(f: Field, ids: seq<Uuid>, players: seq<Contender>, o: Outcome, after: map<Uuid, Row>)
    requires Lists(f.rows, ids, players, o) && Applied(f.rows, ids, o, f.n, after)
    requires forall i | 0 <= i < |ids| :: ResultIs(f, ids[i], o.results[i])
    ensures forall u | u in f.rows :: RowApplied(f, u, after[u])
  {
    ListedStand(f, ids, players, o);
    forall u | u in f.rows ensures RowApplied(f, u, after[u]) {
      if u in ids {
        var i :| 0 <= i < |ids| && ids[i] == u;
        assert ResultIs(f, ids[i], o.results[i]);
      }
    }
  }

  lemma CrownedRows(f: Field, after: map<Uuid, Row>, rows: map<Uuid, Row>, pending: Option<seq<Uuid>>)
    requires after.Keys == f.rows.Keys && exists u :: Standing(f, u)
    requires forall u | u in f.rows :: RowApplied(f, u, after[u]) && !after[u].status.Winner?
    requires match pending
             case None => rows == after && TwoLeft(after)
             case Some(w) => rows == Crown(after, w) && FinishedBy(f.rows, after, w)
    ensures Settles(f, rows)
  {
    assert forall u | u in after :: after[u].status.Active? <==> Stays(f, u);
    match pending
    case None =>
      var v, w :| v != w && v in after && w in after && after[v].status.Active? && after[w].status.Active?;
      assert Stays(f, v) && Stays(f, w);
    case Some(w) => WinnersAre(f, after, w);
  }

  lemma WinnersAre(f: Field, after: map<Uuid, Row>, winners: seq<Uuid>)
    requires after.Keys == f.rows.Keys && exists u :: Standing(f, u)
    requires forall u | u in f.rows :: after[u].status.Active? <==> Stays(f, u)
    requires FinishedBy(f.rows, after, winners)
    ensures forall u | u in f.rows :: u in winners <==> Standing(f, u) && forall v | Stays(f, v) :: v == u
  {
    if |winners| == 1 && forall u :: u in winners <==> u in after && after[u].status.Active? {
      assert winners[0] in winners;
      assert Stays(f, winners[0]);
    } else {
      assert forall v :: !Stays(f, v);
    }
  }

  /** What a settlement does to every player of an undecided arena. */
  lemma SettlementPays(a: Arena, n: int, correct: Answer)
    requires Undecided(a)
    ensures Settles(FieldOf(a, n, correct), HandleSettle(a, n, correct).board.rows)
  {
    var o, f, ids := OutcomeOf(a, n, correct), FieldOf(a, n, correct), ActiveSeats(a.status, a.seats);
    ResultsAre(a, n, correct);
    RowByRow(a, o, ids, n);
    var after := ApplyResults(a.board.rows, o.results, n);
    RowsApplied(f, ids, Contenders(a), o, after);
    if o.results == [] {
      EmptyOutcome(a, o, n);
      NobodyStands(f, ids, Contenders(a), o);
    } else {
      FinishRule(a.board, o.results, n);
      CrownedRows(f, after, HandleSettle(a, n, correct).board.rows, SettleBoard(a.board, o.results, n).1);
    }
  }

  lemma NobodyStands(f: Field, ids: seq<Uuid>, players: seq<Contender>, o: Outcome)
    requires Lists(f.rows, ids, players, o) && ids == []
    ensures Settles(f, f.rows)
  {
    ListedStand(f, ids, players, o);
    assert forall u :: !Standing(f, u);
  }

  predicate ReachesZone(f: Field, u: Uuid) { Standing(f, u) && ScoreThen(f, u) >= ZoneAfter(f.n) }

  ghost predicate NobodyReachesZone(f: Field) { forall u :: !ReachesZone(f, u) }

  ghost predicate TwoStay(f: Field) { exists u, v :: u != v && Stays(f, u) && Stays(f, v) }

  ghost function CircleAfter(f: Field, from: Option<int>): Option<int> {
    if f.zone && TwoStay(f) && NobodyReachesZone(f) then Some(f.n + 1) else from
  }

  /** Final Circle starts with the round after one in which nobody standing reached the zone and two stay; once on, it stays. */
  lemma FinalCircleAfter(a: Arena, n: int, correct: Answer)
    requires Undecided(a)
    ensures HandleSettle(a, n, correct).finalCircleFrom == CircleAfter(FieldOf(a, n, correct), a.finalCircleFrom)
  {
    var f := FieldOf(a, n, correct);
    StageDecides(a, n, correct);
    if f.zone { ZoneStageIs(a, n, correct); }
    CircleIs(f, a.finalCircleFrom, OutcomeOf(a, n, correct).stage, HandleSettle(a, n, correct).finalCircleFrom);
  }

  lemma CircleIs(f: Field, circle: Option<int>, stage: Stage, next: Option<int>)
    requires next == if f.zone && stage == FinalCircle then Some(f.n + 1) else circle
    requires f.zone ==> (stage == FinalCircle <==> TwoStay(f) && NobodyReachesZone(f))
    ensures next == CircleAfter(f, circle)
  {
  }

  lemma ZoneStageIs(a: Arena, n: int, correct: Answer)
    requires Undecided(a) && FieldOf(a, n, correct).zone
    ensures var f := FieldOf(a, n, correct);
            OutcomeOf(a, n, correct).stage == FinalCircle <==> TwoStay(f) && NobodyReachesZone(f)
  {
    var f := FieldOf(a, n, correct);
    ResultsAre(a, n, correct);
    assert OutcomeOf(a, n, correct) == ResolveClassicRound(n, ZoneStage, Contenders(a), f.answers, correct);
    StageAfterZone(f, ActiveSeats(a.status, a.seats), Contenders(a));
  }

  lemma StageDecides(a: Arena, n: int, correct: Answer)
    ensures HandleSettle(a, n, correct).finalCircleFrom
         == if FieldOf(a, n, correct).zone && OutcomeOf(a, n, correct).stage == FinalCircle then Some(n + 1) else a.finalCircleFrom
  {
  }

  lemma StageAfterZone(f: Field, ids: seq<Uuid>, players: seq<Contender>)
    requires f.zone
    requires var o := ResolveClassicRound(f.n, ZoneStage, players, f.answers, f.correct);
             Lists(f.rows, ids, players, o) && forall i | 0 <= i < |ids| :: ResultIs(f, ids[i], o.results[i])
    ensures ResolveClassicRound(f.n, ZoneStage, players, f.answers, f.correct).stage == FinalCircle
            <==> TwoStay(f) && NobodyReachesZone(f)
  {
    var o := ResolveClassicRound(f.n, ZoneStage, players, f.answers, f.correct);
    FinalCircleStarts(f.n, players, f.answers, f.correct);
    NobodyReaches(f, ids, players, o);
    TwoOnTheList(f, ids, players, o);
  }

  lemma NobodyReaches(f: Field, ids: seq<Uuid>, players: seq<Contender>, o: Outcome)
    requires Lists(f.rows, ids, players, o) && f.zone
    ensures (forall j | 0 <= j < |players| :: Reached(true, f.n, players, f.answers, f.correct, j) < ZoneAfter(f.n))
            <==> NobodyReachesZone(f)
  {
    ListedStand(f, ids, players, o);
    assert forall j | 0 <= j < |ids| :: Reached(true, f.n, players, f.answers, f.correct, j) == ScoreThen(f, ids[j]);
    if u :| ReachesZone(f, u) {
      var j :| 0 <= j < |ids| && ids[j] == u;
      assert Reached(true, f.n, players, f.answers, f.correct, j) >= ZoneAfter(f.n);
    }
    if j :| 0 <= j < |players| && Reached(true, f.n, players, f.answers, f.correct, j) >= ZoneAfter(f.n) {
      assert ReachesZone(f, ids[j]);
    }
  }

  lemma TwoOnTheList(f: Field, ids: seq<Uuid>, players: seq<Contender>, o: Outcome)
    requires Lists(f.rows, ids, players, o) && forall i | 0 <= i < |ids| :: ResultIs(f, ids[i], o.results[i])
    ensures (exists i, j :: 0 <= i < j < |players| && o.results[i].status == Active && o.results[j].status == Active)
            <==> TwoStay(f)
  {
    ListedStand(f, ids, players, o);
    assert forall i | 0 <= i < |ids| :: o.results[i].status == Active <==> Stays(f, ids[i]);
    if i, j :| 0 <= i < j < |players| && o.results[i].status == Active && o.results[j].status == Active {
      assert ids[i] != ids[j] && Stays(f, ids[i]) && Stays(f, ids[j]);
    }
    if u, v :| u != v && Stays(f, u) && Stays(f, v) {
      var i :| 0 <= i < |ids| && ids[i] == u;
      var j :| 0 <= j < |ids| && ids[j] == v;
      assert o.results[i].status == Active && o.results[j].status == Active;
      if i > j { assert o.results[j].status == Active && o.results[i].status == Active; }
    }
  }

  // ----- every signal

  /** The settlements of a log, in their order. */
  function Settlements(log: seq<RoundEvent>): seq<RoundEvent> {
    if log == [] then []
    else Settlements(log[..|log| - 1]) + if log[|log| - 1].WasSettled? then [log[|log| - 1]] else []
  }

  ghost predicate NoneSettledSince(log: seq<RoundEvent>, later: seq<RoundEvent>) {
    log <= later && forall i | |log| <= i < |later| :: !later[i].WasSettled?
  }

  lemma {:induction false} SameSettlements(log: seq<RoundEvent>, later: seq<RoundEvent>)
    requires NoneSettledSince(log, later)
    ensures Settlements(later) == Settlements(log)
  {
    if |later| > |log| {
      SameSettlements(log, later[..|later| - 1]);
    } else {
      assert later == log;
    }
  }

  /** At most a player who stands is made a winner. */
  ghost predicate CrownedOnly(rows: map<Uuid, Row>, later: map<Uuid, Row>) {
    && later.Keys == rows.Keys
    && forall u | u in rows ::
         later[u] == rows[u] || (rows[u].status == Active && later[u] == rows[u].(status := Winner, eliminatedRound := None))
  }

  /** `b` follows `a` by the settlement `ev`, perhaps with a finish on top. */
  ghost predicate FollowsBy(a: Arena, b: Arena, ev: RoundEvent, mid: map<Uuid, Row>) {
    && ev.WasSettled? && a.winners.None? && Settlements(b.engine.log) == Settlements(a.engine.log) + [ev]
    && Settles(FieldOf(a, ev.number, ev.answer), mid) && CrownedOnly(mid, b.board.rows)
    && b.finalCircleFrom == CircleAfter(FieldOf(a, ev.number, ev.answer), a.finalCircleFrom)
  }

  ghost predicate NothingSettled(a: Arena, b: Arena) {
    && Settlements(b.engine.log) == Settlements(a.engine.log) && CrownedOnly(a.board.rows, b.board.rows)
    && b.finalCircleFrom == a.finalCircleFrom
  }

  /** Points come from settlements alone, one a signal, and each pays what `Settles` says. */
  ghost predicate Scores(a: Arena, b: Arena) {
    && b.mode == a.mode && b.answers == a.answers
    && (NothingSettled(a, b) || exists ev, mid :: FollowsBy(a, b, ev, mid))
  }

  lemma FinishSettlesNone(e: Engine)
    requires Inv(e)
    ensures NoneSettledSince(e.log, Finish(e).log)
  {
    VoidEachEffect(e.(finished := true), e.order, None);
  }

  lemma LockSettlesNone(e: Engine, n: int, question: Condition)
    requires Inv(e)
    ensures NoneSettledSince(e.log, HandleRoundLock(e, n, question).log)
  {
    if n !in e.rounds { VoidEachEffect(e, e.order, Some(n)); }
  }

  lemma OneSettledMore(log: seq<RoundEvent>, ev: RoundEvent, later: seq<RoundEvent>)
    requires ev.WasSettled? && NoneSettledSince(log + [ev], later)
    ensures Settlements(later) == Settlements(log) + [ev]
  {
    SameSettlements(log + [ev], later);
    assert (log + [ev])[..|log|] == log;
  }

  lemma DecidedScores(a: Arena, n: int, before: GameSnapshot, after: GameSnapshot, answer: Answer)
    requires ArenaInv(a) && HasRound(a.engine, n, Locked)
    ensures var b := HandleSettle(a.(engine := MarkSettled(a.engine, n, before, after, answer)), n, answer);
            FollowsBy(a, b, WasSettled(n, before, after, answer), b.board.rows) && b.mode == a.mode && b.answers == a.answers
  {
    var e := MarkSettled(a.engine, n, before, after, answer);
    var marked := a.(engine := e);
    MarkSettledKeeps(a.engine, n, before, after, answer);
    PlayersIgnoreEngine(a, e);
    PaidAndFinished(marked, n, answer);
    FinalCircleAfter(marked, n, answer);
    OneSettledMore(a.engine.log, WasSettled(n, before, after, answer), HandleSettle(marked, n, answer).engine.log);
  }

  lemma PaidAndFinished(a: Arena, n: int, answer: Answer)
    requires Undecided(a) && Inv(a.engine)
    ensures var b := HandleSettle(a, n, answer);
            && Settles(FieldOf(a, n, answer), b.board.rows) && NoneSettledSince(a.engine.log, b.engine.log)
            && b.mode == a.mode && b.answers == a.answers
  {
    SettlementKeeps(a, n, answer);
    SettlementPays(a, n, answer);
    FinishSettlesNone(a.engine);
  }

  lemma SettleStepScores(a: Arena, n: int, after: GameSnapshot)
    requires ArenaInv(a) && CanSettle(a.engine, n)
    ensures Scores(a, SettleRoundWithBaseline(a, n, after))
  {
    var before := a.engine.baselines[n];
    match ResolveCs2Settlement(a.engine.rounds[n].condition, before, after)
    case Invalid(reason) =>
      SameSettlements(a.engine.log, VoidRound(a.engine, n, Some(reason)).log);
      assert NothingSettled(a, SettleRoundWithBaseline(a, n, after));
    case Decided(answer) =>
      DecidedScores(a, n, before, after, answer);
      var b := SettleRoundWithBaseline(a, n, after);
      assert FollowsBy(a, b, WasSettled(n, before, after, answer), b.board.rows);
  }

  lemma CrownedTwice(rows: map<Uuid, Row>, mid: map<Uuid, Row>, later: map<Uuid, Row>)
    requires CrownedOnly(rows, mid) && CrownedOnly(mid, later)
    ensures CrownedOnly(rows, later)
  {
  }

  /** A finish on top of what a step did. */
  lemma ThenCrowned(a: Arena, b: Arena, c: Arena)
    requires Scores(a, b) && NothingSettled(b, c) && c.mode == b.mode && c.answers == b.answers
    ensures Scores(a, c)
  {
    if NothingSettled(a, b) {
      CrownedTwice(a.board.rows, b.board.rows, c.board.rows);
    } else {
      var ev, mid :| FollowsBy(a, b, ev, mid);
      CrownedTwice(mid, b.board.rows, c.board.rows);
      assert FollowsBy(a, c, ev, mid);
    }
  }

  lemma FinalizeOnlyCrowns(a: Arena)
    requires ArenaInv(a) && Quiet(a.engine)
    ensures NothingSettled(a, Finalize(a)) && Finalize(a).mode == a.mode && Finalize(a).answers == a.answers
  {
    FinalizeKeeps(a);
    FinishSettlesNone(a.engine);
    SameSettlements(a.engine.log, Finish(a.engine).log);
    FinalizedRows(a);
  }

  lemma FinalizedRows(a: Arena)
    requires ArenaInv(a)
    ensures CrownedOnly(a.board.rows, Finalize(a).board.rows) && Finalize(a).finalCircleFrom == a.finalCircleFrom
  {
    if a.winners.None? { ActiveIdsMean(a.board); }
  }

  lemma MatchEndScores(a: Arena)
    requires ArenaInv(a)
    ensures Scores(a, Finalize(EngineMatchEnd(a)))
  {
    var settled := SettleLastStep(a);
    if settled != a { SettleStepScores(a, DeriveRoundNumber(a.engine.lastLive.value) - 1, a.engine.lastLive.value); }
    VoidingAtTheEnd(a);
    ThenCrowned(a, settled, EngineMatchEnd(a));
    EngineMatchEndKeeps(a);
    FinalizeOnlyCrowns(EngineMatchEnd(a));
    ThenCrowned(a, EngineMatchEnd(a), Finalize(EngineMatchEnd(a)));
  }

  lemma VoidingAtTheEnd(a: Arena)
    requires ArenaInv(a)
    ensures var settled, b := SettleLastStep(a), EngineMatchEnd(a);
            NothingSettled(settled, b) && b.mode == settled.mode && b.answers == settled.answers
  {
    var settled := SettleLastStep(a);
    SettleLastKeeps(a);
    VoidEachEffect(settled.engine, settled.engine.order, None);
    SameSettlements(settled.engine.log, EngineMatchEnd(a).engine.log);
  }

  /** In every arena that can be reached, a signal pays what its settlement says, and nothing else pays. */
  lemma {:induction false} SignalScores(a: Arena, signal: Signal, question: Condition)
    requires ArenaInv(a)
    ensures Scores(a, OnSignal(a, signal, question))
  {
    match signal
    case SnapshotSeen(_) =>
    case RoundLock(n) =>
      LockSettlesNone(a.engine, n, question);
      SameSettlements(a.engine.log, HandleRoundLock(a.engine, n, question).log);
    case RoundEnd(n, after) => if CanSettle(a.engine, n) { SettleStepScores(a, n, after); }
    case MatchEnd => MatchEndScores(a);
  }
}

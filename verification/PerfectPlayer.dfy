/** A player who is always right, over every run of an arena. */
module PerfectPlayer {
  import opened Cs2Types
  import opened Cs2Settle
  import opened RoundTracker
  import opened RoundEngine
  import RoundRuns
  import opened ClassicRules
  import opened RoundOutcome
  import opened Leaderboard
  import opened ArenaModel
  import opened ArenaFairness
  import opened ArenaFinish
  import opened ArenaRuns
  import opened ClassicPoints
  import opened ScoreRuns

  /** The rounds settled so far were 1, 2, 3 and so on. */
  predicate InOrder(settled: seq<RoundEvent>) { forall i | 0 <= i < |settled| :: settled[i].number == i + 1 }

  /** Every settlement so far found the player's stored answer right. */
  predicate AlwaysRight(a: Arena, u: Uuid) {
    forall ev | ev in Settlements(a.engine.log) ::
      ev.WasSettled? && ev.number in a.answers && u in a.answers[ev.number] && a.answers[ev.number][u] == ev.answer
  }

  /** What that comes to after `n` rounds; from the first round of the Final Circle on every round is worth one point. */
  function Total(mode: Mode, circle: Option<int>, n: nat): int {
    match (mode, circle)
    case (Hardcore, _) => n
    case (Classic, None) => PerfectScore(n)
    case (Classic, Some(k)) => if 1 <= k <= n + 1 then PerfectScore(k - 1) + (n + 1 - k) else 0
  }

  ghost predicate Unbeaten(a: Arena, u: Uuid) {
    var n := |Settlements(a.engine.log)|;
    && u in a.board.rows && a.board.rows[u].status != Eliminated
    && a.board.rows[u].score == Total(a.mode, a.finalCircleFrom, n) && a.board.rows[u].missed == 0
    && (a.finalCircleFrom.Some? ==> 1 <= a.finalCircleFrom.value <= n + 1)
  }

  lemma {:induction false} SettlementIsLogged(log: seq<RoundEvent>, ev: RoundEvent)
    ensures ev in Settlements(log) <==> ev in log && ev.WasSettled?
  {
    if log != [] {
      SettlementIsLogged(log[..|log| - 1], ev);
      assert log == log[..|log| - 1] + [log[|log| - 1]];
    }
  }

  /** A settled round is closed for answers. */
  lemma SettledIsNotOpen(e: Engine, ev: RoundEvent)
    requires Inv(e) && ev in Settlements(e.log)
    ensures !HasRound(e, ev.number, Open)
  {
    SettlementIsLogged(e.log, ev);
    RoundRuns.ReplayMeaning(e.log);
    assert RoundRuns.Terminal(ev);
  }

  lemma RightBefore(a: Arena, step: ArenaStep, u: Uuid)
    requires ArenaInv(a) && Settlements(a.engine.log) <= Settlements(Step(a, step).engine.log)
    requires AlwaysRight(Step(a, step), u) && InOrder(Settlements(Step(a, step).engine.log))
    ensures AlwaysRight(a, u) && InOrder(Settlements(a.engine.log))
  {
    var settled, later := Settlements(a.engine.log), Settlements(Step(a, step).engine.log);
    forall ev | ev in settled
      ensures ev.WasSettled? && ev.number in a.answers && u in a.answers[ev.number] && a.answers[ev.number][u] == ev.answer
    {
      assert ev in later;
      SettledIsNotOpen(a.engine, ev);
      AnswersCloseWithTheRound(a, step, ev.number);
      assert AnswersFor(a, ev.number) == Step(a, step).answers[ev.number];
    }
  }

  /** Being right keeps a player in, whatever the stage. */
  lemma RightStays(a: Arena, ev: RoundEvent, u: Uuid)
    requires ev.WasSettled? && InOrder(Settlements(a.engine.log)) && ev.number == |Settlements(a.engine.log)| + 1
    requires Unbeaten(a, u) && Standing(FieldOf(a, ev.number, ev.answer), u)
    requires IsRight(FieldOf(a, ev.number, ev.answer), u)
    ensures Stays(FieldOf(a, ev.number, ev.answer), u)
    ensures ScoreThen(FieldOf(a, ev.number, ev.answer), u) == Total(a.mode, a.finalCircleFrom, ev.number)
  {
    PerfectPlayerIsNeverBelowTheZone(ev.number);
  }

  lemma WhoStaysIsPaid(f: Field, mid: map<Uuid, Row>, rows: map<Uuid, Row>, u: Uuid)
    requires Stays(f, u) && Settles(f, mid) && CrownedOnly(mid, rows)
    ensures u in rows && rows[u].score == ScoreThen(f, u) && rows[u].status != Eliminated
    ensures IsRight(f, u) ==> rows[u].missed == f.rows[u].missed
  {
    assert RowPaid(f, u, mid[u]);
  }

  lemma UnbeatenStands(a: Arena, n: int, correct: Answer, u: Uuid)
    requires ArenaInv(a) && Unbeaten(a, u) && a.winners.None?
    ensures Standing(FieldOf(a, n, correct), u)
  {
  }

  lemma SettlementKeepsUnbeaten(a: Arena, b: Arena, ev: RoundEvent, mid: map<Uuid, Row>, u: Uuid)
    requires ArenaInv(a) && Unbeaten(a, u) && FollowsBy(a, b, ev, mid) && b.mode == a.mode && b.answers == a.answers
    requires AlwaysRight(b, u) && InOrder(Settlements(b.engine.log))
    ensures Unbeaten(b, u)
  {
    var settled, f := Settlements(a.engine.log), FieldOf(a, ev.number, ev.answer);
    NextInOrder(settled, ev);
    assert ev in Settlements(b.engine.log);
    UnbeatenStands(a, ev.number, ev.answer, u);
    RightStays(a, ev, u);
    WhoStaysIsPaid(f, mid, b.board.rows, u);
    TotalGoesOn(a.mode, a.finalCircleFrom, f, |settled|);
  }

  /** The total does not depend on whether the Final Circle starts with the next round. */
  lemma TotalGoesOn(mode: Mode, circle: Option<int>, f: Field, n: nat)
    requires f.n == n + 1 && (f.zone <==> mode == Classic && circle == None)
    requires circle.Some? ==> 1 <= circle.value <= n + 1
    ensures Total(mode, CircleAfter(f, circle), n + 1) == Total(mode, circle, n + 1)
    ensures CircleAfter(f, circle).Some? ==> 1 <= CircleAfter(f, circle).value <= n + 2
  {
  }

  lemma NextInOrder(settled: seq<RoundEvent>, ev: RoundEvent)
    requires InOrder(settled + [ev])
    ensures InOrder(settled) && ev.number == |settled| + 1
  {
    assert (settled + [ev])[|settled|] == ev;
    assert forall i | 0 <= i < |settled| :: (settled + [ev])[i] == settled[i];
  }

  lemma StepKeepsUnbeaten(a: Arena, step: ArenaStep, u: Uuid)
    requires ArenaInv(a) && (AlwaysRight(a, u) && InOrder(Settlements(a.engine.log)) ==> Unbeaten(a, u))
    requires AlwaysRight(Step(a, step), u) && InOrder(Settlements(Step(a, step).engine.log))
    ensures Unbeaten(Step(a, step), u)
  {
    var b := Step(a, step);
    StepScores(a, step);
    RightBefore(a, step, u);
    if !NothingPaid(a, b) {
      var ev, mid :| FollowsBy(a, b, ev, mid);
      SettlementKeepsUnbeaten(a, b, ev, mid, u);
    }
  }

  /** Nothing was settled, and nobody who is seated fell or scored. */
  ghost predicate NothingPaid(a: Arena, b: Arena) {
    && Settlements(b.engine.log) == Settlements(a.engine.log) && b.finalCircleFrom == a.finalCircleFrom
    && forall u | u in a.board.rows ::
         && u in b.board.rows && b.board.rows[u].score == a.board.rows[u].score
         && b.board.rows[u].missed == a.board.rows[u].missed
         && (b.board.rows[u].status == Eliminated <==> a.board.rows[u].status == Eliminated)
  }

  lemma StepScores(a: Arena, step: ArenaStep)
    requires ArenaInv(a)
    ensures var b := Step(a, step);
            && b.mode == a.mode && Settlements(a.engine.log) <= Settlements(b.engine.log)
            && (NothingPaid(a, b) || (b.answers == a.answers && exists ev, mid :: FollowsBy(a, b, ev, mid)))
  {
    match step
    case JoinStep(u) => JoinPaysNothing(a, u);
    case SubmitStep(_, _, _) => SamePlayersPaid(a, Step(a, step));
    case SignalStep(signal, question) => SignalPaid(a, signal, question);
    case OpenOneStep(_) => SamePlayersPaid(a, Step(a, step));
  }

  lemma JoinPaysNothing(a: Arena, u: Uuid)
    requires ArenaInv(a)
    ensures NothingPaid(a, Join(a, u)) && Join(a, u).mode == a.mode
  {
    JoinAddsAtMostOne(a, u);
  }

  lemma SamePlayersPaid(a: Arena, b: Arena)
    requires b.board == a.board && b.engine.log == a.engine.log && b.finalCircleFrom == a.finalCircleFrom
    ensures NothingPaid(a, b)
  {
  }

  lemma SignalPaid(a: Arena, signal: Signal, question: Condition)
    requires ArenaInv(a)
    ensures var b := OnSignal(a, signal, question);
            && b.mode == a.mode && b.answers == a.answers && Settlements(a.engine.log) <= Settlements(b.engine.log)
            && (NothingPaid(a, b) || exists ev, mid :: FollowsBy(a, b, ev, mid))
  {
    SignalScores(a, signal, question);
    if NothingSettled(a, OnSignal(a, signal, question)) { CrowningPaysNothing(a, OnSignal(a, signal, question)); }
  }

  lemma CrowningPaysNothing(a: Arena, b: Arena)
    requires NothingSettled(a, b)
    ensures NothingPaid(a, b)
  {
  }

  lemma {:induction false} SeatedAtZero(mode: Mode, teams: (Uuid, Uuid), roster: seq<Uuid>, question: Condition, u: Uuid)
    requires u in roster
    ensures Unbeaten(NewArena(mode, teams, roster, question), u)
  {
    var a := NewArena(mode, teams, roster, question);
    NewArenaIsSound(mode, teams, roster, question);
    RoundRuns.OpeningIsSound(teams, question);
    var empty := NewArena(mode, teams, [], question);
    assert ArenaInv(empty) by { NewArenaIsSound(mode, teams, [], question); }
    RosterIsSeated(empty, roster, u);
    assert Settlements(empty.engine.log) == [] by {
      assert empty.engine.log == [Opened(1)];
      assert [Opened(1)][..0] == [];
    }
  }

  lemma {:induction false} RosterIsSeated(a: Arena, roster: seq<Uuid>, u: Uuid)
    requires ArenaInv(a) && !a.board.finished && a.board.rows == map[]
    ensures var seated := SeatAll(a, roster);
            && seated.engine == a.engine && seated.mode == a.mode && seated.finalCircleFrom == a.finalCircleFrom
            && !seated.board.finished && (u in roster ==> u in seated.board.rows)
            && forall v | v in seated.board.rows :: seated.board.rows[v] == NEW_ROW
  {
    if roster != [] {
      assert roster == roster[..|roster| - 1] + [roster[|roster| - 1]];
      RosterIsSeated(a, roster[..|roster| - 1], u);
    }
  }

  /**
   * Over every run: a player on the roster who answered every settled round right, the rounds having settled one after
   * the other, is not eliminated, missed nothing and has the perfect score; while the zone is on, that is never below it.
   */
  lemma {:induction false} PerfectPlayerStaysIn(
    mode: Mode, teams: (Uuid, Uuid), roster: seq<Uuid>, question: Condition, steps: seq<ArenaStep>, u: Uuid)
    requires u in roster
    requires var a := Run(NewArena(mode, teams, roster, question), steps);
             AlwaysRight(a, u) && InOrder(Settlements(a.engine.log))
    ensures var a := Run(NewArena(mode, teams, roster, question), steps);
            var n := |Settlements(a.engine.log)|;
            && Unbeaten(a, u)
            && (a.mode == Classic && a.finalCircleFrom == None ==>
                  a.board.rows[u].score == PerfectScore(n) && ZoneAfter(n) <= a.board.rows[u].score)
  {
    var start := NewArena(mode, teams, roster, question);
    PerfectSoFar(mode, teams, roster, question, steps, u);
    PerfectPlayerIsNeverBelowTheZone(|Settlements(Run(start, steps).engine.log)|);
  }

  lemma {:induction false} PerfectSoFar(
    mode: Mode, teams: (Uuid, Uuid), roster: seq<Uuid>, question: Condition, steps: seq<ArenaStep>, u: Uuid)
    requires u in roster
    ensures var a := Run(NewArena(mode, teams, roster, question), steps);
            AlwaysRight(a, u) && InOrder(Settlements(a.engine.log)) ==> Unbeaten(a, u)
  {
    var start := NewArena(mode, teams, roster, question);
    if steps == [] {
      SeatedAtZero(mode, teams, roster, question, u);
    } else {
      var shorter, last := steps[..|steps| - 1], steps[|steps| - 1];
      PerfectSoFar(mode, teams, roster, question, shorter, u);
      EveryArenaIsSound(mode, teams, roster, question, shorter);
      var b := Run(start, steps);
      if AlwaysRight(b, u) && InOrder(Settlements(b.engine.log)) { StepKeepsUnbeaten(Run(start, shorter), last, u); }
    }
  }
}

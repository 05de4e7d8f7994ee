/** What one settled round pays and whom it removes, read off the stored answers and the scores (settlement/classic-outcome.ts). */
module ClassicPoints {
  import opened Cs2Types
  import opened ClassicRules
  import opened RoundOutcome

  predicate Right(answers: Answers, u: Uuid, correct: Answer) { u in answers && answers[u] == correct }

  /** What a right answer is worth: two points in the rounds that open and close a half, while the zone is on. */
  function Worth(zone: bool, n: int): nat { if zone && (n == 1 || n == 12 || n == 13 || n == 24) then 2 else 1 }

  function Earned(zone: bool, n: int, answers: Answers, u: Uuid, correct: Answer): nat {
    if Right(answers, u, correct) then Worth(zone, n) else 0
  }

  /** The score of player `i` when the round is over. */
  function Reached(zone: bool, n: int, players: seq<Contender>, answers: Answers, correct: Answer, i: nat): nat
    requires i < |players|
  {
    players[i].score + Earned(zone, n, answers, players[i].userId, correct)
  }

  /** A result names its player, repeats the stored answer, judges it, and pays for a right one only. */
  lemma ResultMeans(n: int, stage: Stage, players: seq<Contender>, answers: Answers, correct: Answer, i: nat)
    requires i < |players|
    ensures var r, u := ResolveClassicRound(n, stage, players, answers, correct).results[i], players[i].userId;
            && r.userId == u
            && (r.answer == None <==> u !in answers) && (u in answers ==> r.answer == Some(answers[u]))
            && (r.result == Correct <==> Right(answers, u, correct)) && (r.result == Missed <==> u !in answers)
            && (r.points > 0 <==> Right(answers, u, correct))
            && r.points == Earned(stage == ZoneStage, n, answers, u, correct)
  {
  }

  /** With the zone on, a player falls exactly if they end below it and somebody ends ahead of them. */
  lemma ZoneRemoves(n: int, players: seq<Contender>, answers: Answers, correct: Answer, i: nat)
    requires i < |players|
    ensures var o := ResolveClassicRound(n, ZoneStage, players, answers, correct);
            && o.results[i].status == (if Reached(true, n, players, answers, correct, i) < ZoneAfter(n)
                                          && exists j :: 0 <= j < |players| &&
                                               Reached(true, n, players, answers, correct, j)
                                               > Reached(true, n, players, answers, correct, i)
                                       then Eliminated else Active)
  {
    var scores := ScoresAfter(n, players, answers, correct);
    assert forall j | 0 <= j < |players| :: scores[j] == Reached(true, n, players, answers, correct, j);
    ThresholdIsReached(scores, ZoneAfter(n));
    var top :| 0 <= top < |scores| && scores[top] >= Threshold(scores, ZoneAfter(n));
  }

  /** Final Circle starts exactly if nobody reached the zone and at least two are left. */
  lemma FinalCircleStarts(n: int, players: seq<Contender>, answers: Answers, correct: Answer)
    ensures var o := ResolveClassicRound(n, ZoneStage, players, answers, correct);
            o.stage == FinalCircle
            <==> && (forall j | 0 <= j < |players| :: Reached(true, n, players, answers, correct, j) < ZoneAfter(n))
                 && (exists i, j :: 0 <= i < j < |players| && o.results[i].status == Active && o.results[j].status == Active)
  {
    var o, scores := ResolveClassicRound(n, ZoneStage, players, answers, correct), ScoresAfter(n, players, answers, correct);
    assert forall j | 0 <= j < |players| :: scores[j] == Reached(true, n, players, answers, correct, j);
    AtLeastTwo(o.results);
  }

  lemma {:induction false} SomeSurvivor(results: seq<PlayerResult>)
    ensures SurvivorCount(results) >= 1 <==> exists i :: 0 <= i < |results| && results[i].status == Active
  {
    if results != [] {
      var shorter := results[..|results| - 1];
      SomeSurvivor(shorter);
      if i :| 0 <= i < |shorter| && shorter[i].status == Active { assert results[i].status == Active; }
      if i :| 0 <= i < |results| && results[i].status == Active { assert i < |shorter| ==> shorter[i].status == Active; }
    }
  }

  lemma {:induction false} AtLeastTwo(results: seq<PlayerResult>)
    ensures SurvivorCount(results) >= 2
            <==> exists i, j :: 0 <= i < j < |results| && results[i].status == Active && results[j].status == Active
  {
    if results != [] {
      var n := |results| - 1;
      var shorter := results[..n];
      AtLeastTwo(shorter);
      SomeSurvivor(shorter);
      if i, j :| 0 <= i < j < |shorter| && shorter[i].status == Active && shorter[j].status == Active {
        assert results[i].status == Active && results[j].status == Active;
      }
      if i :| results[n].status == Active && 0 <= i < |shorter| && shorter[i].status == Active {
        assert results[i].status == Active;
      }
      if i, j :| 0 <= i < j < |results| && results[i].status == Active && results[j].status == Active {
        assert shorter[i].status == Active;
        if j < n { assert shorter[j].status == Active; }
      }
    }
  }

  /** Hardcore rules: whoever was not right falls, unless they answered and nobody was right. */
  lemma HardcoreRemoves(ids: seq<Uuid>, answers: Answers, correct: Answer, i: nat)
    requires i < |ids|
    ensures var r := HardcoreRound(ids, answers, correct, true).results[i];
            && r.userId == ids[i]
            && (r.answer == None <==> ids[i] !in answers) && (ids[i] in answers ==> r.answer == Some(answers[ids[i]]))
            && (r.result == Correct <==> Right(answers, ids[i], correct)) && (r.result == Missed <==> ids[i] !in answers)
            && r.points == (if Right(answers, ids[i], correct) then 1 else 0)
            && r.status == (if Right(answers, ids[i], correct)
                               || (ids[i] in answers && forall j | 0 <= j < |ids| :: !Right(answers, ids[j], correct))
                            then Active else Eliminated)
  {
    assert ids[i] in ids;
    assert forall j | 0 <= j < |ids| :: Right(answers, ids[j], correct) <==> AnswerOf(answers, ids[j]) == Some(correct);
    if forall j | 0 <= j < |ids| :: !Right(answers, ids[j], correct) {
      forall id | id in ids ensures AnswerOf(answers, id) != Some(correct) {
        var j :| 0 <= j < |ids| && ids[j] == id;
      }
    } else {
      var j :| 0 <= j < |ids| && Right(answers, ids[j], correct);
      assert ids[j] in ids;
    }
  }

  /** The survival rule is told of a round exactly if hardcore rules apply, somebody answered, and nobody was right. */
  lemma SurvivalRuleMeans(n: int, stage: Stage, players: seq<Contender>, answers: Answers, correct: Answer)
    ensures ResolveClassicRound(n, stage, players, answers, correct).survivalRule
            <==> && stage == FinalCircle
                 && (exists i :: 0 <= i < |players| && players[i].userId in answers)
                 && (forall i | 0 <= i < |players| :: !Right(answers, players[i].userId, correct))
  {
    var ids := Ids(players);
    forall i | 0 <= i < |players| ensures ids[i] in ids && ids[i] == players[i].userId { }
    if id :| id in ids && id in answers { var i :| 0 <= i < |ids| && ids[i] == id; assert players[i].userId in answers; }
    if forall i | 0 <= i < |players| :: !Right(answers, players[i].userId, correct) {
      forall id | id in ids ensures AnswerOf(answers, id) != Some(correct) {
        var i :| 0 <= i < |ids| && ids[i] == id;
        assert !Right(answers, players[i].userId, correct);
      }
    } else {
      var i :| 0 <= i < |players| && Right(answers, players[i].userId, correct);
      assert AnswerOf(answers, ids[i]) == Some(correct);
    }
  }
}

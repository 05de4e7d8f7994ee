/** What one settled round does to the active players (settlement/apply-outcome.ts, classic-outcome.ts). */
module RoundOutcome {
  import opened Cs2Types
  import opened ClassicRules

  datatype PredictionResult = Correct | Incorrect | Missed
  datatype PlayerStatus = Active | Eliminated | Winner
  datatype Stage = ZoneStage | FinalCircle

  /** An active player with their score before the round. */
  datatype Contender = Contender(userId: Uuid, score: nat)

  datatype PlayerResult = PlayerResult(
    userId: Uuid, answer: Option<Answer>, result: PredictionResult, points: nat, status: PlayerStatus)

  datatype Outcome = Outcome(results: seq<PlayerResult>, stage: Stage, survivalRule: bool)

  type Answers = map<Uuid, Answer>

  function AnswerOf(answers: Answers, userId: Uuid): Option<Answer> {
    if userId in answers then Some(answers[userId]) else None
  }

  function Judge(answer: Option<Answer>, correct: Answer): PredictionResult {
    if answer.None? then Missed else if answer.value == correct then Correct else Incorrect
  }

  /** Someone answered, but nobody got it right. */
  predicate NoCorrectAnswers(playerIds: seq<Uuid>, answers: Answers, correct: Answer) {
    && (exists id | id in playerIds :: id in answers)
    && (forall id | id in playerIds :: AnswerOf(answers, id) != Some(correct))
  }

  function HardcoreStatus(result: PredictionResult, survivalRule: bool): PlayerStatus {
    if result.Correct? || (result.Incorrect? && survivalRule) then Active else Eliminated
  }

  /** Hardcore rules for the listed players; `continueWithoutCorrect` enables the survival rule. */
  function HardcoreRound(playerIds: seq<Uuid>, answers: Answers, correct: Answer, continueWithoutCorrect: bool): (o: Outcome)
    ensures |o.results| == |playerIds|
  {
    var rule := continueWithoutCorrect && NoCorrectAnswers(playerIds, answers, correct);
    Outcome(
      seq(|playerIds|, i requires 0 <= i < |playerIds| => HardcoreResult(playerIds[i], answers, correct, rule)),
      FinalCircle, rule)
  }

  function HardcoreResult(userId: Uuid, answers: Answers, correct: Answer, rule: bool): PlayerResult {
    var answer := AnswerOf(answers, userId);
    var result := Judge(answer, correct);
    PlayerResult(userId, answer, result, if result.Correct? then 1 else 0, HardcoreStatus(result, rule))
  }

  function ZonePoints(n: int, p: Contender, answers: Answers, correct: Answer): nat {
    if Judge(AnswerOf(answers, p.userId), correct).Correct? then RoundPoints(n) else 0
  }

  function ScoresAfter(n: int, players: seq<Contender>, answers: Answers, correct: Answer): (scores: seq<nat>)
    ensures |scores| == |players|
  {
    seq(|players|, i requires 0 <= i < |players| => players[i].score + ZonePoints(n, players[i], answers, correct))
  }

  function MaxOf(xs: seq<nat>): (m: nat)
    requires xs != []
    ensures m in xs && forall x | x in xs :: x <= m
  {
    if |xs| == 1 then xs[0]
    else
      assert forall x :: x in xs <==> x == xs[0] || x in xs[1..];
      var m := MaxOf(xs[1..]); if xs[0] > m then xs[0] else m
  }

  predicate AnyAbove(scores: seq<nat>, zone: nat) { exists i | 0 <= i < |scores| :: scores[i] >= zone }

  /** Below this score a player falls: the zone, or the top score when the zone would empty the field. */
  function Threshold(scores: seq<nat>, zone: nat): nat {
    if AnyAbove(scores, zone) || scores == [] then zone else MaxOf(scores)
  }

  function ZoneResult(n: int, p: Contender, answers: Answers, correct: Answer, threshold: nat): PlayerResult {
    var answer := AnswerOf(answers, p.userId);
    var points := ZonePoints(n, p, answers, correct);
    PlayerResult(p.userId, answer, Judge(answer, correct), points,
                 if p.score + points >= threshold then Active else Eliminated)
  }

  function SurvivorCount(results: seq<PlayerResult>): nat {
    if results == [] then 0
    else SurvivorCount(results[..|results| - 1]) + if results[|results| - 1].status.Active? then 1 else 0
  }

  function ResolveZoneRound(n: int, players: seq<Contender>, answers: Answers, correct: Answer): (o: Outcome)
    ensures |o.results| == |players|
  {
    var zone, scores := ZoneAfter(n), ScoresAfter(n, players, answers, correct);
    var threshold := Threshold(scores, zone);
    var results := seq(|players|, i requires 0 <= i < |players| => ZoneResult(n, players[i], answers, correct, threshold));
    Outcome(results, if !AnyAbove(scores, zone) && SurvivorCount(results) >= 2 then FinalCircle else ZoneStage, false)
  }

  function Ids(players: seq<Contender>): (ids: seq<Uuid>)
    ensures |ids| == |players|
  {
    seq(|players|, i requires 0 <= i < |players| => players[i].userId)
  }

  /** Zone scoring, or hardcore rules once the arena is in Final Circle. */
  function ResolveClassicRound(n: int, stage: Stage, players: seq<Contender>, answers: Answers, correct: Answer): (o: Outcome)
    ensures |o.results| == |players|
  {
    if stage.FinalCircle? then HardcoreRound(Ids(players), answers, correct, true)
    else ResolveZoneRound(n, players, answers, correct)
  }

  // ----- what the rules guarantee

  function ScoreAfter(players: seq<Contender>, o: Outcome, i: nat): nat
    requires i < |players| == |o.results|
  {
    players[i].score + o.results[i].points
  }

  ghost predicate AllEqual(players: seq<Contender>) {
    forall i, j | 0 <= i < |players| && 0 <= j < |players| :: players[i].score == players[j].score
  }

  /** Results list the players in order; each is kept or eliminated, and no survivor trails a fallen player. */
  ghost predicate Fair(players: seq<Contender>, o: Outcome) {
    && |o.results| == |players|
    && (forall i | 0 <= i < |players| :: o.results[i].userId == players[i].userId && !o.results[i].status.Winner?)
    && (forall i, j | 0 <= i < |players| && 0 <= j < |players| && o.results[i].status.Active? ::
          o.results[j].status.Eliminated? ==> ScoreAfter(players, o, j) <= ScoreAfter(players, o, i))
  }

  /** All survivors have the same score. */
  ghost predicate LevelField(players: seq<Contender>, o: Outcome)
    requires |o.results| == |players|
  {
    forall i, j | 0 <= i < |players| && 0 <= j < |players| && o.results[i].status.Active? && o.results[j].status.Active? ::
      ScoreAfter(players, o, i) == ScoreAfter(players, o, j)
  }

  ghost predicate NobodyLeft(o: Outcome) {
    forall i | 0 <= i < |o.results| :: !o.results[i].status.Active?
  }

  lemma ZoneResultsByScore(n: int, players: seq<Contender>, answers: Answers, correct: Answer, i: nat)
    requires i < |players|
    ensures var o, scores := ResolveZoneRound(n, players, answers, correct), ScoresAfter(n, players, answers, correct);
            && o.results[i].userId == players[i].userId && !o.results[i].status.Winner?
            && ScoreAfter(players, o, i) == scores[i]
            && (o.results[i].status.Active? <==> scores[i] >= Threshold(scores, ZoneAfter(n)))
  {
  }

  /** The threshold is reached by someone; when it is not the zone, only by equal top scores. */
  lemma ThresholdIsReached(scores: seq<nat>, zone: nat)
    requires scores != []
    ensures exists i :: 0 <= i < |scores| && scores[i] >= Threshold(scores, zone)
    ensures !AnyAbove(scores, zone) ==> forall i | 0 <= i < |scores| :: scores[i] <= Threshold(scores, zone)
  {
    if !AnyAbove(scores, zone) {
      assert forall i | 0 <= i < |scores| :: scores[i] in scores;
      var top :| 0 <= top < |scores| && scores[top] == MaxOf(scores);
      assert scores[top] >= Threshold(scores, zone);
    }
  }

  lemma {:induction false} ZoneRoundIsFair(n: int, players: seq<Contender>, answers: Answers, correct: Answer)
    ensures var o := ResolveZoneRound(n, players, answers, correct);
            && Fair(players, o)
            && (players != [] ==> !NobodyLeft(o))
            && (o.stage.FinalCircle? ==> LevelField(players, o))
  {
    var o := ResolveZoneRound(n, players, answers, correct);
    var scores := ScoresAfter(n, players, answers, correct);
    forall i | 0 <= i < |players|
      ensures o.results[i].userId == players[i].userId && !o.results[i].status.Winner?
      ensures ScoreAfter(players, o, i) == scores[i]
      ensures o.results[i].status.Active? <==> scores[i] >= Threshold(scores, ZoneAfter(n))
    {
      ZoneResultsByScore(n, players, answers, correct, i);
    }
    if players != [] {
      ThresholdIsReached(scores, ZoneAfter(n));
      var top :| 0 <= top < |scores| && scores[top] >= Threshold(scores, ZoneAfter(n));
      assert o.results[top].status.Active?;
    }
  }

  /** If anybody answered, somebody is left: a right answerer, or else whoever answered. */
  lemma AnsweringLeavesSomebody(ids: seq<Uuid>, answers: Answers, correct: Answer, i: nat)
    requires i < |ids|
    requires !HardcoreRound(ids, answers, correct, true).results[i].result.Missed?
    ensures !NobodyLeft(HardcoreRound(ids, answers, correct, true))
  {
    var o := HardcoreRound(ids, answers, correct, true);
    if forall id | id in ids :: AnswerOf(answers, id) != Some(correct) {
      assert ids[i] in ids && ids[i] in answers;
      assert NoCorrectAnswers(ids, answers, correct);
      assert o.results[i].status.Active?;
    } else {
      var id :| id in ids && AnswerOf(answers, id) == Some(correct);
      var k :| 0 <= k < |ids| && ids[k] == id;
      assert o.results[k].status.Active?;
    }
  }

  /**
   * Among players with equal scores, hardcore rules keep the survivors level; and when nobody is
   * left, nobody had answered, so nobody gained a point either.
   */
  lemma {:induction false} HardcoreRoundIsFair(players: seq<Contender>, answers: Answers, correct: Answer)
    requires AllEqual(players)
    ensures var o := HardcoreRound(Ids(players), answers, correct, true);
            && Fair(players, o) && LevelField(players, o)
            && (NobodyLeft(o) ==> forall i | 0 <= i < |players| :: o.results[i].result.Missed? && o.results[i].points == 0)
  {
    var ids := Ids(players);
    var o := HardcoreRound(ids, answers, correct, true);
    if NobodyLeft(o) {
      forall i | 0 <= i < |players| ensures o.results[i].result.Missed? {
        if !o.results[i].result.Missed? { AnsweringLeavesSomebody(ids, answers, correct, i); }
      }
    }
    if o.survivalRule {
      forall i | 0 <= i < |players| ensures o.results[i].points == 0 {
        assert ids[i] in ids;
      }
    }
  }
}

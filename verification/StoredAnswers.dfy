/** Which answer a settlement finds: the last one a player gave while they could (settlement/prediction-store.ts). */
module StoredAnswers {
  import opened Cs2Types
  import opened Cs2Settle
  import opened RoundEngine
  import opened RoundOutcome
  import opened ArenaModel
  import opened ArenaRuns

  /** The round is open and the player is in the game. */
  predicate MayAnswer(a: Arena, u: Uuid, n: int) {
    && n in a.engine.rounds && a.engine.rounds[n].status == Open
    && u in a.status && a.status[u] == Active
  }

  /** The answer in the last submission for the round that came while the player might answer. */
  function LastAnswer(start: Arena, steps: seq<ArenaStep>, u: Uuid, n: int): Option<Answer> {
    if steps == [] then None
    else
      var shorter, last := steps[..|steps| - 1], steps[|steps| - 1];
      if last.SubmitStep? && last.userId == u && last.number == n && MayAnswer(Run(start, shorter), u, n)
      then Some(last.answer) else LastAnswer(start, shorter, u, n)
  }

  function StoredAnswer(a: Arena, u: Uuid, n: int): Option<Answer> {
    if n in a.answers && u in a.answers[n] then Some(a.answers[n][u]) else None
  }

  /** One step stores an answer exactly if it is a submission of a player who may give it; all others stay. */
  lemma StepStores(a: Arena, step: ArenaStep, u: Uuid, n: int)
    ensures StoredAnswer(Step(a, step), u, n)
         == if step.SubmitStep? && step.userId == u && step.number == n && MayAnswer(a, u, n) then Some(step.answer)
            else StoredAnswer(a, u, n)
  {
    if step.SignalStep? { SignalKeepsAnswers(a, step.signal, step.question); }
  }

  lemma {:induction false} SeatingAnswersNothing(a: Arena, roster: seq<Uuid>)
    ensures SeatAll(a, roster).answers == a.answers
  {
    if roster != [] { SeatingAnswersNothing(a, roster[..|roster| - 1]); }
  }

  /** Over every run: what is stored for a player and a round is the last answer they gave while they might. */
  lemma {:induction false} LastAnswerIsStored(
    mode: Mode, teams: (Uuid, Uuid), roster: seq<Uuid>, question: Condition, steps: seq<ArenaStep>, u: Uuid, n: int)
    ensures var start := NewArena(mode, teams, roster, question);
            StoredAnswer(Run(start, steps), u, n) == LastAnswer(start, steps, u, n)
  {
    var start := NewArena(mode, teams, roster, question);
    if steps == [] {
      SeatingAnswersNothing(NewArena(mode, teams, [], question), roster);
    } else {
      LastAnswerIsStored(mode, teams, roster, question, steps[..|steps| - 1], u, n);
      StepStores(Run(start, steps[..|steps| - 1]), steps[|steps| - 1], u, n);
    }
  }
}

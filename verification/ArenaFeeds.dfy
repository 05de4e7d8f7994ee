/** A whole arena behind the tracker: the engine theorems hold for the composed system. */
module ArenaFeeds {
  import opened Cs2Types
  import opened Cs2Settle
  import opened RoundTracker
  import opened RoundEngine
  import opened TrackedRuns
  import OneOpenRound
  import opened GatewayCache
  import opened ArenaModel
  import opened ArenaRuns

  /** One poll of the feed, or something a player did in between. */
  datatype FeedStep =
    | FeedPoll(snapshot: Option<GameSnapshot>, question: Condition, delivered: bool)
    | PlayerJoins(userId: Uuid)
    | PlayerAnswers(userId: Uuid, number: int, answer: Answer)

  datatype Live = Live(tracker: TrackerState, arena: Arena)

  function Publish(a: Arena, signals: seq<Signal>, question: Condition): Arena
    decreases |signals|
  {
    if signals == [] then a else Publish(OnSignal(a, signals[0], question), signals[1..], question)
  }

  function Feed(l: Live, step: FeedStep): Live {
    match step
    case FeedPoll(snapshot, question, delivered) =>
      var (tracker, signals) := Track(l.tracker, snapshot);
      Live(tracker, if delivered then Publish(l.arena, signals, question) else l.arena)
    case PlayerJoins(u) => l.(arena := Join(l.arena, u))
    case PlayerAnswers(u, n, answer) => l.(arena := SubmitAnswer(l.arena, u, n, answer))
  }

  function FeedAll(l: Live, steps: seq<FeedStep>): Live {
    if steps == [] then l else Feed(FeedAll(l, steps[..|steps| - 1]), steps[|steps| - 1])
  }

  predicate Settles(signal: Signal) { signal.RoundEnd? || signal.MatchEnd? }

  ghost predicate SettlesOnce(signals: seq<Signal>) {
    forall i, j | 0 <= i < j < |signals| :: !Settles(signals[i]) || !Settles(signals[j])
  }

  lemma TrackSettlesOnce(t: TrackerState, snapshot: Option<GameSnapshot>)
    ensures SettlesOnce(Track(t, snapshot).1)
  {
  }

  /** The engine inside the arena takes the same signals as a bare one, with one finishing decision per poll. */
  lemma {:induction false} PublishFollowsEngine(a: Arena, signals: seq<Signal>, question: Condition) returns (finishes: bool)
    requires ArenaInv(a) && SettlesOnce(signals)
    ensures ArenaInv(Publish(a, signals, question))
    ensures Publish(a, signals, question).engine == DeliverAll(a.engine, signals, question, finishes)
    ensures (forall i | 0 <= i < |signals| :: !Settles(signals[i])) ==>
              forall f :: DeliverAll(a.engine, signals, question, f) == DeliverAll(a.engine, signals, question, finishes)
    decreases |signals|
  {
    if signals == [] { return false; }
    var head, rest := signals[0], signals[1..];
    ArenaFollowsEngine(a, head, question);
    SignalKeeps(a, head, question);
    forall i | 0 <= i < |rest| && Settles(head) ensures !Settles(rest[i]) {
      assert rest[i] == signals[i + 1];
    }
    var later := PublishFollowsEngine(OnSignal(a, head, question), rest, question);
    finishes := if Settles(head) then SettlementFinishes(a, head) else later;
  }

  /** A bare engine fed `polls` ends up where the arena's engine is; they are the feed's polls but for who finishes when. */
  ghost predicate Follows(start: Live, bare: Pipeline, steps: seq<FeedStep>, polls: seq<Poll>) {
    var l := FeedAll(start, steps);
    && ArenaInv(l.arena)
    && Pipeline(l.tracker, l.arena.engine) == RunPolls(bare, polls)
    && |polls| == |PollsOf(steps)|
    && forall i | 0 <= i < |polls| :: polls[i] == PollsOf(steps)[i].(finishes := polls[i].finishes)
  }

  /** The polls a bare engine would have to be fed to end up where the arena's engine is. */
  lemma {:induction false} FeedFollowsEngine(
    mode: Mode, teams: (Uuid, Uuid), roster: seq<Uuid>, question: Condition, steps: seq<FeedStep>)
    returns (polls: seq<Poll>)
    ensures Follows(Live(INITIAL, NewArena(mode, teams, roster, question)), Start(teams, question), steps, polls)
  {
    if steps == [] {
      NewArenaIsSound(mode, teams, roster, question);
      EmptyRosterEngine(mode, teams, roster, question);
      return [];
    }
    var before := FeedFollowsEngine(mode, teams, roster, question, steps[..|steps| - 1]);
    polls := FollowsOneMore(Live(INITIAL, NewArena(mode, teams, roster, question)), Start(teams, question), steps, before);
  }

  lemma FollowsOneMore(start: Live, bare: Pipeline, steps: seq<FeedStep>, before: seq<Poll>) returns (polls: seq<Poll>)
    requires steps != [] && Follows(start, bare, steps[..|steps| - 1], before)
    ensures Follows(start, bare, steps, polls)
  {
    var l, last := FeedAll(start, steps[..|steps| - 1]), steps[|steps| - 1];
    polls := before;
    match last
    case PlayerJoins(u) => JoinKeeps(l.arena, u);
    case PlayerAnswers(u, n, answer) => StepKeeps(l.arena, SubmitStep(u, n, answer));
    case FeedPoll(snapshot, q, delivered) =>
      var poll := OnePollMore(l, snapshot, q, delivered);
      assert (before + [poll])[..|before|] == before;
      polls := before + [poll];
  }

  lemma OnePollMore(before: Live, snapshot: Option<GameSnapshot>, question: Condition, delivered: bool) returns (poll: Poll)
    requires ArenaInv(before.arena)
    ensures var after := Feed(before, FeedPoll(snapshot, question, delivered));
            && ArenaInv(after.arena)
            && Pipeline(after.tracker, after.arena.engine) == OnPoll(Pipeline(before.tracker, before.arena.engine), poll)
    ensures poll == Poll(snapshot, question, poll.finishes, delivered)
  {
    TrackSettlesOnce(before.tracker, snapshot);
    var finishes := PublishFollowsEngine(before.arena, Track(before.tracker, snapshot).1, question);
    poll := Poll(snapshot, question, finishes, delivered);
  }


  lemma {:induction false} EmptyRosterEngine(mode: Mode, teams: (Uuid, Uuid), roster: seq<Uuid>, question: Condition)
    ensures NewArena(mode, teams, roster, question).engine == Start(teams, question).engine
  {
    if roster != [] {
      EmptyRosterEngine(mode, teams, roster[..|roster| - 1], question);
    }
  }

  /** The polls among the feed's steps. */
  function PollsOf(steps: seq<FeedStep>): seq<Poll> {
    if steps == [] then []
    else
      var last := steps[|steps| - 1];
      PollsOf(steps[..|steps| - 1])
      + if last.FeedPoll? then [Poll(last.snapshot, last.question, false, last.delivered)] else []
  }

  /** In every arena, whoever joins or answers in between: no settlement ever diffs across two rounds. */
  lemma {:induction false} ArenaSettlementsNeverMixRounds(
    mode: Mode, teams: (Uuid, Uuid), roster: seq<Uuid>, question: Condition, steps: seq<FeedStep>)
    ensures Exact(FeedAll(Live(INITIAL, NewArena(mode, teams, roster, question)), steps).arena.engine)
  {
    var polls := FeedFollowsEngine(mode, teams, roster, question, steps);
    SettlementsNeverMixRounds(teams, question, polls);
  }

  /** And on a steady feed one round is open at a time, as the reconnect cache says. */
  lemma {:induction false} ArenaHasOneOpenRound(
    mode: Mode, teams: (Uuid, Uuid), roster: seq<Uuid>, question: Condition, steps: seq<FeedStep>)
    requires OneOpenRound.Steady(PollsOf(steps))
    ensures var e := FeedAll(Live(INITIAL, NewArena(mode, teams, roster, question)), steps).arena.engine;
            && (forall n, m | HasRound(e, n, Open) && m in e.rounds :: m <= n)
            && (forall n :: CacheOf(e.log).openRound == Some(n) <==> HasRound(e, n, Open))
  {
    var polls := FeedFollowsEngine(mode, teams, roster, question, steps);
    assert OneOpenRound.Steady(polls);
    OneOpenRound.OneOpenRoundAndTheCacheKnowsIt(teams, question, polls);
  }
}

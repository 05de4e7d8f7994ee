/**
 * The per-round state machine of one CS2 arena (cs2/round-engine.ts), as functions on its state.
 *
 * The engine calls its owner back on every transition. Only one callback changes the engine: a
 * settlement may finish the arena, which voids everything still pending before the settlement
 * returns. Here the callback's decision is the parameter `finishes`, and every theorem holds for
 * all of its values; the arena runtime supplies the real decision. The log lists the callbacks.
 */
module RoundEngine {
  import opened Cs2Types
  import opened Cs2Settle
  import opened RoundTracker

  datatype RoundStatus = Open | Locked | Settled | Voided

  datatype Round = Round(condition: Condition, status: RoundStatus, answer: Option<Answer>)

  datatype RoundEvent =
    | Opened(number: int)
    | WasLocked(number: int)
    | WasSettled(number: int, before: GameSnapshot, after: GameSnapshot, answer: Answer)
    | WasVoided(number: int, reason: Option<InvalidReason>)

  /** `order` is the insertion order of the source's map of rounds. */
  datatype Engine = Engine(
    rounds: map<int, Round>,
    order: seq<int>,
    baselines: map<int, GameSnapshot>,
    lastLive: Option<GameSnapshot>,
    teams: Option<(Uuid, Uuid)>,
    finished: bool,
    log: seq<RoundEvent>)

  predicate Pending(r: Round) { r.status == Open || r.status == Locked }

  predicate HasRound(e: Engine, n: int, status: RoundStatus) {
    n in e.rounds && e.rounds[n].status == status
  }

  // ----- transitions

  function New(teams: Option<(Uuid, Uuid)>): Engine {
    Engine(map[], [], map[], None, teams, false, [])
  }

  /** Without team identities the source throws before it changes anything. */
  predicate OpenThrows(e: Engine, n: int) { n !in e.rounds && e.teams.None? }

  function HandleOpen(e: Engine, n: int, question: Condition): Engine {
    if n in e.rounds || e.teams.None? then e
    else e.(rounds := e.rounds[n := Round(question, Open, None)], order := e.order + [n], log := e.log + [Opened(n)])
  }

  function VoidRound(e: Engine, n: int, reason: Option<InvalidReason>): Engine
    requires n in e.rounds
  {
    e.(rounds := e.rounds[n := e.rounds[n].(status := Voided)],
       baselines := e.baselines - {n},
       log := e.log + [WasVoided(n, reason)])
  }

  predicate InScope(n: int, through: Option<int>) { through.None? || n <= through.value }

  /** Voids the pending rounds among `numbers`, in that order. */
  function VoidEach(e: Engine, numbers: seq<int>, through: Option<int>): Engine
    decreases |numbers|
  {
    if numbers == [] then e
    else
      var n := numbers[0];
      var voids := n in e.rounds && InScope(n, through) && Pending(e.rounds[n]);
      VoidEach(if voids then VoidRound(e, n, None) else e, numbers[1..], through)
  }

  function VoidRemaining(e: Engine, through: Option<int>): Engine {
    VoidEach(e, e.order, through)
  }

  /** What the owner does to the engine once it has winners. */
  function Finish(e: Engine): Engine {
    VoidRemaining(e.(finished := true), None)
  }

  function MarkSettled(e: Engine, n: int, before: GameSnapshot, after: GameSnapshot, answer: Answer): Engine
    requires n in e.rounds
  {
    e.(rounds := e.rounds[n := e.rounds[n].(status := Settled, answer := Some(answer))],
       log := e.log + [WasSettled(n, before, after, answer)])
  }

  function Settle(e: Engine, n: int, before: GameSnapshot, after: GameSnapshot, finishes: bool): Engine
    requires n in e.rounds
  {
    match ResolveCs2Settlement(e.rounds[n].condition, before, after)
    case Invalid(reason) => VoidRound(e, n, Some(reason))
    case Decided(answer) =>
      var settled := MarkSettled(e, n, before, after, answer);
      if finishes then Finish(settled) else settled
  }

  function HandleRoundLock(e: Engine, n: int, question: Condition): Engine {
    if n !in e.rounds then
      // No prediction is created for an answer window the feed never showed.
      var voided := VoidRemaining(e, Some(n));
      if e.finished then voided else HandleOpen(voided, n + 1, question)
    else
      var locked :=
        if e.rounds[n].status == Open then
          e.(rounds := e.rounds[n := e.rounds[n].(status := Locked)], log := e.log + [WasLocked(n)])
        else e;
      var based :=
        if e.lastLive.Some? then locked.(baselines := locked.baselines[n := e.lastLive.value]) else locked;
      if e.finished then based else HandleOpen(based, n + 1, question)
  }

  predicate CanSettle(e: Engine, n: int) { HasRound(e, n, Locked) && n in e.baselines }

  function SettleWithBaseline(e: Engine, n: int, after: GameSnapshot, finishes: bool): Engine
    requires CanSettle(e, n)
  {
    var settled := Settle(e, n, e.baselines[n], after, finishes);
    settled.(baselines := settled.baselines - {n})
  }

  function HandleRoundEnd(e: Engine, n: int, after: GameSnapshot, finishes: bool): Engine {
    if CanSettle(e, n) then SettleWithBaseline(e, n, after, finishes) else e
  }

  /** The last live snapshot proves that locked round `n` was scored, and only that round. */
  predicate ProvenAtEnd(e: Engine, n: int) {
    && CanSettle(e, n) && e.lastLive.Some?
    && DeriveRoundNumber(e.baselines[n]) == n
    && DeriveRoundNumber(e.lastLive.value) == n + 1
  }

  /**
   * The source walks all locked rounds here. The last live snapshot proves at most one of them, the
   * round below the one it shows; the loop of the round engine class is proved to do just this.
   */
  function SettleLastRound(e: Engine, finishes: bool): Engine {
    if e.lastLive.Some? && ProvenAtEnd(e, DeriveRoundNumber(e.lastLive.value) - 1) then
      SettleWithBaseline(e, DeriveRoundNumber(e.lastLive.value) - 1, e.lastLive.value, finishes)
    else e
  }

  function HandleMatchEnd(e: Engine, finishes: bool): Engine {
    VoidRemaining(SettleLastRound(e, finishes), None).(lastLive := None, baselines := map[])
  }

  function Apply(e: Engine, signal: Signal, question: Condition, finishes: bool): Engine {
    match signal
    case SnapshotSeen(s) => e.(lastLive := Some(s), teams := Some((s.first.teamId, s.second.teamId)))
    case RoundLock(n) => HandleRoundLock(e, n, question)
    case RoundEnd(n, after) => HandleRoundEnd(e, n, after, finishes)
    case MatchEnd => HandleMatchEnd(e, finishes)
  }

  // ----- the life of a round, read off the callbacks alone

  /** The statuses the events lead to, or None as soon as an event is out of place. */
  function Replay(log: seq<RoundEvent>): Option<map<int, RoundStatus>> {
    if log == [] then Some(map[])
    else
      var so_far := Replay(log[..|log| - 1]);
      if so_far.None? then None else ReplayEvent(so_far.value, log[|log| - 1])
  }

  function ReplayEvent(m: map<int, RoundStatus>, event: RoundEvent): Option<map<int, RoundStatus>> {
    var n := event.number;
    match event
    case Opened(_) => if n in m then None else Some(m[n := Open])
    case WasLocked(_) => if n in m && m[n] == Open then Some(m[n := Locked]) else None
    case WasSettled(_, _, _, _) => if n in m && m[n] == Locked then Some(m[n := Settled]) else None
    case WasVoided(_, _) => if n in m && m[n] in {Open, Locked} then Some(m[n := Voided]) else None
  }

  function Statuses(rounds: map<int, Round>): map<int, RoundStatus> {
    map n | n in rounds :: rounds[n].status
  }

  predicate Quiet(e: Engine) {
    forall n | n in e.rounds :: !Pending(e.rounds[n])
  }

  ghost predicate Consistent(e: Engine) {
    && (forall n :: n in e.order <==> n in e.rounds)
    && e.baselines.Keys <= e.rounds.Keys
    && Replay(e.log) == Some(Statuses(e.rounds))
  }

  /** What every reachable engine satisfies, whatever it is fed. */
  ghost predicate Inv(e: Engine) {
    Consistent(e) && (e.finished ==> Quiet(e))
  }

  lemma {:induction false} ReplayAppend(log: seq<RoundEvent>, event: RoundEvent)
    requires Replay(log).Some?
    ensures Replay(log + [event]) == ReplayEvent(Replay(log).value, event)
  {
    assert (log + [event])[..|log|] == log;
  }

  lemma {:induction false} VoidRoundKeeps(e: Engine, n: int, reason: Option<InvalidReason>)
    requires Consistent(e) && n in e.rounds && Pending(e.rounds[n])
    ensures Consistent(VoidRound(e, n, reason))
  {
    assert Statuses(VoidRound(e, n, reason).rounds) == Statuses(e.rounds)[n := Voided];
    ReplayAppend(e.log, WasVoided(n, reason));
  }

  /** `v` is `e` with exactly the pending rounds among `numbers` that are in scope voided. */
  ghost predicate VoidsExactly(e: Engine, v: Engine, numbers: seq<int>, through: Option<int>) {
    && v == e.(rounds := v.rounds, baselines := v.baselines, log := v.log)
    && v.rounds.Keys == e.rounds.Keys
    && (forall n | n in e.rounds ::
          v.rounds[n] == if n in numbers && InScope(n, through) && Pending(e.rounds[n])
                         then e.rounds[n].(status := Voided) else e.rounds[n])
    && (forall n | n in v.baselines :: n in e.baselines && v.baselines[n] == e.baselines[n])
    && e.log <= v.log
    && (forall i | |e.log| <= i < |v.log| :: v.log[i].WasVoided?)
  }

  lemma {:induction false} VoidEachEffect(e: Engine, numbers: seq<int>, through: Option<int>)
    requires Consistent(e)
    ensures Consistent(VoidEach(e, numbers, through))
    ensures VoidsExactly(e, VoidEach(e, numbers, through), numbers, through)
    decreases |numbers|
  {
    if numbers != [] {
      var n := numbers[0];
      if n in e.rounds && InScope(n, through) && Pending(e.rounds[n]) {
        VoidRoundKeeps(e, n, None);
        VoidEachEffect(VoidRound(e, n, None), numbers[1..], through);
      } else {
        VoidEachEffect(e, numbers[1..], through);
      }
      VoidsOneMore(e, VoidEach(e, numbers, through), numbers, through);
    }
  }

  lemma VoidsOneMore(e: Engine, v: Engine, numbers: seq<int>, through: Option<int>)
    requires numbers != []
    requires var n := numbers[0];
             if n in e.rounds && InScope(n, through) && Pending(e.rounds[n])
             then VoidsExactly(VoidRound(e, n, None), v, numbers[1..], through)
             else VoidsExactly(e, v, numbers[1..], through)
    ensures VoidsExactly(e, v, numbers, through)
  {
    assert numbers == [numbers[0]] + numbers[1..];
    var n := numbers[0];
    if n in e.rounds && InScope(n, through) && Pending(e.rounds[n]) {
      assert v.log[|e.log|] == VoidRound(e, n, None).log[|e.log|];
    }
  }

  /** Voiding through round `n` voids every open or locked round up to and including it, and leaves the rest alone. */
  lemma VoidRemainingMeans(e: Engine, n: int)
    requires Consistent(e)
    ensures var v := VoidRemaining(e, Some(n));
            && v.rounds.Keys == e.rounds.Keys
            && forall m | m in e.rounds ::
                 v.rounds[m] == if m <= n && e.rounds[m].status in {Open, Locked} then e.rounds[m].(status := Voided)
                                else e.rounds[m]
  {
    VoidEachEffect(e, e.order, Some(n));
  }

  lemma {:induction false} FinishKeeps(e: Engine)
    requires Inv(e)
    ensures Inv(Finish(e)) && Finish(e).finished && Quiet(Finish(e))
    ensures Finish(e).rounds.Keys == e.rounds.Keys
    ensures forall n | n in e.rounds && !Pending(e.rounds[n]) :: Finish(e).rounds[n] == e.rounds[n]
  {
    VoidEachEffect(e.(finished := true), e.order, None);
  }

  lemma {:induction false} OpenKeeps(e: Engine, n: int, question: Condition)
    requires Inv(e) && (e.finished ==> n in e.rounds)
    ensures Inv(HandleOpen(e, n, question))
  {
    if n !in e.rounds && e.teams.Some? {
      ReplayAppend(e.log, Opened(n));
      assert Statuses(HandleOpen(e, n, question).rounds) == Statuses(e.rounds)[n := Open];
    }
  }

  lemma {:induction false} LockKeeps(e: Engine, n: int, question: Condition)
    requires Inv(e)
    ensures Inv(HandleRoundLock(e, n, question))
    ensures e.finished ==> HandleRoundLock(e, n, question).finished
  {
    if n !in e.rounds {
      VoidEachEffect(e, e.order, Some(n));
      var voided := VoidRemaining(e, Some(n));
      if !e.finished { OpenKeeps(voided, n + 1, question); }
    } else {
      var locked := e.(rounds := e.rounds[n := e.rounds[n].(status := Locked)], log := e.log + [WasLocked(n)]);
      if e.rounds[n].status == Open {
        ReplayAppend(e.log, WasLocked(n));
        assert Statuses(locked.rounds) == Statuses(e.rounds)[n := Locked];
      } else {
        locked := e;
      }
      var based := if e.lastLive.Some? then locked.(baselines := locked.baselines[n := e.lastLive.value]) else locked;
      assert Inv(based);
      if !e.finished { OpenKeeps(based, n + 1, question); }
    }
  }

  lemma {:induction false} MarkSettledKeeps(e: Engine, n: int, before: GameSnapshot, after: GameSnapshot, answer: Answer)
    requires Inv(e) && HasRound(e, n, Locked)
    ensures Inv(MarkSettled(e, n, before, after, answer))
  {
    assert Statuses(MarkSettled(e, n, before, after, answer).rounds) == Statuses(e.rounds)[n := Settled];
    ReplayAppend(e.log, WasSettled(n, before, after, answer));
  }

  /** A settlement resolves its round, leaves resolved rounds alone, and pends nothing new. */
  lemma {:induction false} SettleKeeps(e: Engine, n: int, before: GameSnapshot, after: GameSnapshot, finishes: bool)
    requires Inv(e) && HasRound(e, n, Locked)
    ensures var s := Settle(e, n, before, after, finishes);
            && Inv(s) && s.order == e.order && s.lastLive == e.lastLive && s.teams == e.teams
            && s.rounds.Keys == e.rounds.Keys && !Pending(s.rounds[n])
            && (forall m | m in e.rounds && m != n ::
                  s.rounds[m] == e.rounds[m] || (Pending(e.rounds[m]) && !Pending(s.rounds[m])))
            && s.finished == (e.finished || (finishes && s.rounds[n].status == Settled))
            && (forall m | m in s.baselines :: m in e.baselines && s.baselines[m] == e.baselines[m])
  {
    match ResolveCs2Settlement(e.rounds[n].condition, before, after)
    case Invalid(reason) => VoidRoundKeeps(e, n, Some(reason));
    case Decided(answer) =>
      MarkSettledKeeps(e, n, before, after, answer);
      if finishes {
        var settled := MarkSettled(e, n, before, after, answer).(finished := true);
        VoidEachEffect(settled, settled.order, None);
      }
  }

  lemma {:induction false} MatchEndKeeps(e: Engine, finishes: bool)
    requires Inv(e)
    ensures var m := HandleMatchEnd(e, finishes);
            Inv(m) && Quiet(m) && (e.finished ==> m.finished) && m.rounds.Keys == e.rounds.Keys
    ensures forall n | n in e.rounds && !Pending(e.rounds[n]) :: HandleMatchEnd(e, finishes).rounds[n] == e.rounds[n]
  {
    var settled := SettleLastRound(e, finishes);
    if settled != e {
      var n := DeriveRoundNumber(e.lastLive.value) - 1;
      SettleKeeps(e, n, e.baselines[n], e.lastLive.value, finishes);
    }
    VoidEachEffect(settled, settled.order, None);
  }

  lemma {:induction false} ApplyKeeps(e: Engine, signal: Signal, question: Condition, finishes: bool)
    requires Inv(e)
    ensures var a := Apply(e, signal, question, finishes);
            Inv(a) && (e.finished ==> a.finished)
  {
    match signal
    case SnapshotSeen(_) =>
    case RoundLock(n) => LockKeeps(e, n, question);
    case RoundEnd(n, after) => if CanSettle(e, n) { SettleKeeps(e, n, e.baselines[n], after, finishes); }
    case MatchEnd => MatchEndKeeps(e, finishes);
  }
}

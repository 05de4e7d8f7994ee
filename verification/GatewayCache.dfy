/** The reconnect cache's view of the rounds (gateway/ws.ts, `updateCache`), fed by the round callbacks. */
module GatewayCache {
  import opened Cs2Types
  import opened RoundEngine

  /** The last round message, and the last opened round until a later message closes it. */
  datatype RoundCache = RoundCache(round: Option<RoundEvent>, openRound: Option<int>)

  function CacheStep(c: RoundCache, event: RoundEvent): RoundCache {
    RoundCache(
      Some(event),
      if event.Opened? then Some(event.number)
      else if c.openRound == Some(event.number) then None
      else c.openRound)
  }

  function CacheOf(log: seq<RoundEvent>): RoundCache {
    if log == [] then RoundCache(None, None) else CacheStep(CacheOf(log[..|log| - 1]), log[|log| - 1])
  }

  class ArenaCache {
    var round: Option<RoundEvent>
    var openRound: Option<int>
    ghost var seen: seq<RoundEvent>

    ghost predicate Valid() reads this { RoundCache(round, openRound) == CacheOf(seen) }

    constructor ()
      ensures Valid() && seen == []
    {
      round, openRound, seen := None, None, [];
    }

    /** One broadcast message; the cache stays the fold over everything broadcast. */
    method UpdateCache(message: RoundEvent)
      requires Valid()
      modifies this
      ensures Valid() && seen == old(seen) + [message]
    {
      match message {
        case Opened(n) =>
          round := Some(message);
          openRound := Some(n);
        case _ =>
          round := Some(message);
          if openRound == Some(message.number) {
            openRound := None;
          }
      }
      seen := seen + [message];
      assert seen[..|seen| - 1] == old(seen);
    }
  }

  function LastOpened(log: seq<RoundEvent>): Option<int> {
    if log == [] then None
    else if log[|log| - 1].Opened? then Some(log[|log| - 1].number)
    else LastOpened(log[..|log| - 1])
  }

  /** On every legal log, the cached open round is the last opened one as long as it is still open. */
  lemma {:induction false} CacheIsLastOpened(log: seq<RoundEvent>)
    requires Replay(log).Some?
    ensures var last := LastOpened(log);
            && (last.Some? ==> last.value in Replay(log).value)
            && CacheOf(log).openRound
               == if last.Some? && Replay(log).value[last.value] == Open then last else None
  {
    if log != [] {
      CacheIsLastOpened(log[..|log| - 1]);
    }
  }

  lemma {:induction false} LastOpenedUnchanged(log: seq<RoundEvent>, longer: seq<RoundEvent>)
    requires log <= longer
    requires forall i | |log| <= i < |longer| :: !longer[i].Opened?
    ensures LastOpened(longer) == LastOpened(log)
    decreases |longer|
  {
    if |log| < |longer| {
      LastOpenedUnchanged(log, longer[..|longer| - 1]);
    } else {
      assert longer == log;
    }
  }
}

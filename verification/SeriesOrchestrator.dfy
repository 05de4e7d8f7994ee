/** Applying the reducer's actions to the arenas, with any write failing (cs2/series-orchestrator.ts). */
module SeriesOrchestrator {
  import opened Cs2Types
  import opened SeriesLifecycle

  datatype Why = InsufficientPlayers | OperatorSkip | ByAction(reason: CancelReason)
  datatype Row = Lobby | Live | Finished | Cancelled(why: Why)
  datatype SeriesStatus = Active | Decided | Invalid | Skipped

  /** One map's arena: its database row, whether this process holds a runtime for it, and its escrow's cancellation. */
  datatype Cell = Cell(row: Option<Row>, mapped: bool, detached: bool, chainCancelled: bool)

  const NO_CELL := Cell(None, false, false, false)

  datatype World = World(cells: map<nat, Cell>, series: SeriesStatus)

  /** What does not change while a poll is retried: the paid passes behind the closed gate, and who is on chain. */
  datatype Env = Env(paid: nat -> nat, onchain: nat -> bool)

  function CellOf(w: World, k: nat): Cell { if k in w.cells then w.cells[k] else NO_CELL }

  function IndexOf(a: Action): Option<nat> {
    match a
    case OpenArena(k) => Some(k)
    case MatchLiveDetected(k) => Some(k)
    case CancelArena(k, _) => Some(k)
    case MatchEnded(_) => None
    case SeriesDecided(_) => None
  }

  // ----- one action on its arena

  /** None is a throw. */
  function CancelOn(env: Env, k: nat, c: Cell, why: Why): Option<Cell> {
    match c.row
    case Some(Cancelled(_)) => Some(c.(detached := c.detached || c.mapped))
    case Some(Lobby) =>
      Some(Cell(Some(Cancelled(why)), c.mapped, c.detached || c.mapped, c.chainCancelled || env.onchain(k)))
    case _ => None
  }

  function ActOn(env: Env, k: nat, c: Cell, a: Action, known: bool): Option<Cell> {
    match a
    case OpenArena(_) =>
      if c.mapped then Some(c)
      else if !known then None
      else Some(c.(row := if c.row.None? then Some(Lobby) else c.row, mapped := true))
    case MatchLiveDetected(_) =>
      if !c.mapped then Some(c)
      else if c.row == Some(Cancelled(InsufficientPlayers)) then Some(c.(detached := true))
      else if c.row != Some(Lobby) && c.row != Some(Live) then None
      else if env.paid(k) < 2 then CancelOn(env, k, c, InsufficientPlayers)
      else Some(c.(row := Some(Live)))
    case CancelArena(_, reason) => CancelOn(env, k, c, ByAction(reason))
    case MatchEnded(_) => Some(c)
    case SeriesDecided(_) => Some(c)
  }

  /** The cells that a cancellation leaves when it stops after one of its writes. */
  function CancelTrail(env: Env, k: nat, c: Cell, why: Why): seq<Cell> {
    if c.row != Some(Lobby) then []
    else
      var onChain := c.(chainCancelled := c.chainCancelled || env.onchain(k));
      [onChain, onChain.(row := Some(Cancelled(why)))]
  }

  /** The cells that an action can leave between `c` and its outcome. */
  function Between(env: Env, k: nat, c: Cell, a: Action, known: bool): seq<Cell> {
    match a
    case OpenArena(_) =>
      if c.mapped || !known then [] else [c.(row := if c.row.None? then Some(Lobby) else c.row)]
    case MatchLiveDetected(_) =>
      if c.mapped && (c.row == Some(Lobby) || c.row == Some(Live)) && env.paid(k) < 2
      then CancelTrail(env, k, c, InsufficientPlayers) else []
    case CancelArena(_, reason) => CancelTrail(env, k, c, ByAction(reason))
    case MatchEnded(_) => []
    case SeriesDecided(_) => []
  }

  predicate IsLeft(env: Env, k: nat, c: Cell, a: Action, known: bool, p: Cell) {
    p == c || Some(p) == ActOn(env, k, c, a, known) || p in Between(env, k, c, a, known)
  }

  function SeriesAfter(s: SeriesStatus, a: Action): SeriesStatus {
    match a
    case SeriesDecided(_) => Decided
    case CancelArena(_, NoShow) => Invalid
    case CancelArena(_, SeriesOver) => Decided
    case _ => s
  }

  // ----- actions on the world

  function Apply(env: Env, w: World, a: Action, known: bool): Option<World> {
    var k := IndexOf(a);
    if k.None? then Some(w.(series := SeriesAfter(w.series, a)))
    else
      var cell := ActOn(env, k.value, CellOf(w, k.value), a, known);
      if cell.None? then None
      else Some(World(w.cells[k.value := cell.value], SeriesAfter(w.series, a)))
  }

  function ApplyAll(env: Env, w: World, actions: seq<Action>, known: bool): Option<World> {
    if actions == [] then Some(w)
    else
      var before := ApplyAll(env, w, actions[..|actions| - 1], known);
      if before.None? then None else Apply(env, before.value, actions[|actions| - 1], known)
  }

  /** `p` is left behind when action `a` stops part way, or reports failure although it was through. */
  ghost predicate Partial(env: Env, w: World, a: Action, known: bool, p: World) {
    || p == w
    || Some(p) == Apply(env, w, a, known)
    || (IndexOf(a).Some? &&
        var k := IndexOf(a).value;
        && p == World(w.cells[k := CellOf(p, k)], w.series)
        && IsLeft(env, k, CellOf(w, k), a, known, CellOf(p, k)))
  }

  /** An attempt at `actions` that failed somewhere left `p`. */
  ghost predicate Interrupted(env: Env, w: World, actions: seq<Action>, known: bool, p: World) {
    exists j ::
      && 0 <= j < |actions|
      && ApplyAll(env, w, actions[..j], known).Some?
      && Partial(env, ApplyAll(env, w, actions[..j], known).value, actions[j], known, p)
  }

  // ----- one arena: what was done stays done

  predicate Concerns(a: Action, k: nat) { IndexOf(a) == Some(k) }

  function ActIfConcerned(env: Env, k: nat, c: Cell, a: Action, known: bool): Option<Cell> {
    if Concerns(a, k) then ActOn(env, k, c, a, known) else Some(c)
  }

  /** Doing `a` again changes nothing. */
  predicate Fixes(env: Env, k: nat, c: Cell, a: Action, known: bool) { ActIfConcerned(env, k, c, a, known) == Some(c) }

  function CellAfter(env: Env, k: nat, c: Cell, actions: seq<Action>, known: bool): Option<Cell> {
    if actions == [] then Some(c)
    else
      var before := CellAfter(env, k, c, actions[..|actions| - 1], known);
      if before.None? then None else ActIfConcerned(env, k, before.value, actions[|actions| - 1], known)
  }

  /** No arena is opened after another action on it. */
  ghost predicate OpensFirst(actions: seq<Action>) {
    forall i, j | 0 <= i < j < |actions| && actions[j].OpenArena? :: IndexOf(actions[i]) != IndexOf(actions[j])
  }

  /** A successful action can be taken up again from wherever it stopped, and then stays done. */
  lemma TakenUpAgain(env: Env, k: nat, c: Cell, a: Action, known: bool, p: Cell)
    requires ActOn(env, k, c, a, known).Some? && IsLeft(env, k, c, a, known, p)
    ensures ActOn(env, k, p, a, known) == ActOn(env, k, c, a, known)
    ensures var end := ActOn(env, k, c, a, known).value; ActOn(env, k, end, a, known) == Some(end)
  {
  }

  /** What an earlier action did survives a later one that succeeds, and any part of it. */
  lemma StaysDone(env: Env, k: nat, c: Cell, earlier: Action, a: Action, known: bool, p: Cell)
    requires Concerns(earlier, k) && Concerns(a, k) && !a.OpenArena?
    requires Fixes(env, k, c, earlier, known) && ActOn(env, k, c, a, known).Some? && IsLeft(env, k, c, a, known, p)
    ensures Fixes(env, k, p, earlier, known)
  {
  }

  lemma {:induction false} DoneOnTheWay(env: Env, k: nat, c: Cell, actions: seq<Action>, known: bool)
    requires OpensFirst(actions) && CellAfter(env, k, c, actions, known).Some?
    ensures forall i | 0 <= i < |actions| :: Fixes(env, k, CellAfter(env, k, c, actions, known).value, actions[i], known)
  {
    if actions != [] {
      var n := |actions| - 1;
      var before := CellAfter(env, k, c, actions[..n], known).value;
      DoneOnTheWay(env, k, c, actions[..n], known);
      forall i | 0 <= i < n ensures Fixes(env, k, before, actions[i], known) { assert actions[..n][i] == actions[i]; }
      OneMoreDone(env, k, before, actions, known, CellAfter(env, k, c, actions, known).value);
    }
  }

  lemma OneMoreDone(env: Env, k: nat, before: Cell, actions: seq<Action>, known: bool, p: Cell)
    requires actions != [] && OpensFirst(actions)
    requires forall i | 0 <= i < |actions| - 1 :: Fixes(env, k, before, actions[i], known)
    requires var a := actions[|actions| - 1];
             ActIfConcerned(env, k, before, a, known).Some?
             && if Concerns(a, k) then IsLeft(env, k, before, a, known, p) else p == before
    ensures forall i | 0 <= i < |actions| - 1 :: Fixes(env, k, p, actions[i], known)
    ensures Some(p) == ActIfConcerned(env, k, before, actions[|actions| - 1], known) ==>
      Fixes(env, k, p, actions[|actions| - 1], known)
  {
    var n := |actions| - 1;
    var a := actions[n];
    forall i | 0 <= i < n ensures Fixes(env, k, p, actions[i], known) {
      if Concerns(a, k) && Concerns(actions[i], k) { StaysDone(env, k, before, actions[i], a, known, p); }
    }
    if Concerns(a, k) { TakenUpAgain(env, k, before, a, known, p); }
  }

  lemma {:induction false} FixedThroughout(env: Env, k: nat, p: Cell, actions: seq<Action>, known: bool)
    requires forall i | 0 <= i < |actions| :: Fixes(env, k, p, actions[i], known)
    ensures CellAfter(env, k, p, actions, known) == Some(p)
  {
    if actions != [] { FixedThroughout(env, k, p, actions[..|actions| - 1], known); }
  }

  lemma {:induction false} SameFromThere(env: Env, k: nat, c: Cell, p: Cell, actions: seq<Action>, j: nat, known: bool)
    requires j <= |actions| && CellAfter(env, k, c, actions[..j], known) == CellAfter(env, k, p, actions[..j], known)
    ensures CellAfter(env, k, c, actions, known) == CellAfter(env, k, p, actions, known)
  {
    if j == |actions| {
      assert actions[..j] == actions;
    } else {
      assert actions[..|actions| - 1][..j] == actions[..j];
      SameFromThere(env, k, c, p, actions[..|actions| - 1], j, known);
    }
  }

  /** For one arena, a failed attempt at `actions` makes no difference to what the repeated attempt reaches. */
  lemma CellRetried(env: Env, k: nat, c: Cell, actions: seq<Action>, j: nat, known: bool, p: Cell)
    requires OpensFirst(actions) && j < |actions| && CellAfter(env, k, c, actions[..j + 1], known).Some?
    requires CellAfter(env, k, c, actions[..j], known).Some?
    requires var before := CellAfter(env, k, c, actions[..j], known).value;
             if Concerns(actions[j], k) then IsLeft(env, k, before, actions[j], known, p) else p == before
    ensures CellAfter(env, k, p, actions, known) == CellAfter(env, k, c, actions, known)
  {
    var first := actions[..j + 1];
    assert first[..j] == actions[..j];
    var before := CellAfter(env, k, c, actions[..j], known).value;
    DoneOnTheWay(env, k, c, actions[..j], known);
    forall i | 0 <= i < j ensures Fixes(env, k, before, first[i], known) { assert actions[..j][i] == first[i]; }
    OneMoreDone(env, k, before, first, known, p);
    forall i | 0 <= i < j ensures Fixes(env, k, p, actions[..j][i], known) { assert actions[..j][i] == first[i]; }
    FixedThroughout(env, k, p, actions[..j], known);
    if Concerns(actions[j], k) { TakenUpAgain(env, k, before, actions[j], known, p); }
    assert CellAfter(env, k, p, first, known) == CellAfter(env, k, c, first, known);
    SameFromThere(env, k, c, p, actions, j + 1, known);
  }

  // ----- all arenas and the series

  function SeriesAfterAll(s: SeriesStatus, actions: seq<Action>): SeriesStatus {
    if actions == [] then s else SeriesAfter(SeriesAfterAll(s, actions[..|actions| - 1]), actions[|actions| - 1])
  }

  ghost predicate AllSucceed(env: Env, w: World, actions: seq<Action>, known: bool) {
    forall k :: CellAfter(env, k, CellOf(w, k), actions, known).Some?
  }

  lemma {:induction false} ArenaByArena(env: Env, w: World, actions: seq<Action>, known: bool)
    ensures ApplyAll(env, w, actions, known).Some? <==> AllSucceed(env, w, actions, known)
    ensures ApplyAll(env, w, actions, known).Some? ==>
      && ApplyAll(env, w, actions, known).value.series == SeriesAfterAll(w.series, actions)
      && forall k :: Some(CellOf(ApplyAll(env, w, actions, known).value, k)) == CellAfter(env, k, CellOf(w, k), actions, known)
  {
    if actions != [] {
      var n := |actions| - 1;
      ArenaByArena(env, w, actions[..n], known);
      if ApplyAll(env, w, actions[..n], known).Some? {
        OneApply(env, w, actions, known);
      } else {
        var k :| CellAfter(env, k, CellOf(w, k), actions[..n], known).None?;
        assert CellAfter(env, k, CellOf(w, k), actions, known).None?;
      }
    }
  }

  lemma OneApply(env: Env, w: World, actions: seq<Action>, known: bool)
    requires actions != [] && ApplyAll(env, w, actions[..|actions| - 1], known).Some?
    requires forall k :: Some(CellOf(ApplyAll(env, w, actions[..|actions| - 1], known).value, k))
                         == CellAfter(env, k, CellOf(w, k), actions[..|actions| - 1], known)
    ensures ApplyAll(env, w, actions, known).Some? <==> AllSucceed(env, w, actions, known)
    ensures ApplyAll(env, w, actions, known).Some? ==>
      forall k :: Some(CellOf(ApplyAll(env, w, actions, known).value, k)) == CellAfter(env, k, CellOf(w, k), actions, known)
  {
    var u, a := ApplyAll(env, w, actions[..|actions| - 1], known).value, actions[|actions| - 1];
    forall k ensures CellAfter(env, k, CellOf(w, k), actions, known) == ActIfConcerned(env, k, CellOf(u, k), a, known) {
      assert Some(CellOf(u, k)) == CellAfter(env, k, CellOf(w, k), actions[..|actions| - 1], known);
    }
    if IndexOf(a).Some? {
      var k := IndexOf(a).value;
      assert CellAfter(env, k, CellOf(w, k), actions, known) == ActOn(env, k, CellOf(u, k), a, known);
    }
  }

  /** What an interrupted action does to each arena. */
  lemma PartialByArena(env: Env, w: World, a: Action, known: bool, p: World, k: nat)
    requires Partial(env, w, a, known, p)
    ensures if Concerns(a, k) then IsLeft(env, k, CellOf(w, k), a, known, CellOf(p, k)) else CellOf(p, k) == CellOf(w, k)
  {
  }

  lemma {:induction false} SeriesRetried(s: SeriesStatus, actions: seq<Action>, j: nat, p: SeriesStatus)
    requires j < |actions|
    requires p == SeriesAfterAll(s, actions[..j]) || p == SeriesAfter(SeriesAfterAll(s, actions[..j]), actions[j])
    ensures SeriesAfterAll(p, actions) == SeriesAfterAll(s, actions)
  {
    if exists i :: 0 <= i < |actions| && Writes(actions[i]) {
      LastWriterDecides(s, p, actions);
    } else {
      NoWriter(s, actions[..j]);
      NoWriter(s, actions);
      NoWriter(p, actions);
    }
  }

  predicate Writes(a: Action) { a.SeriesDecided? || (a.CancelArena? && !a.reason.Forfeit?) }

  lemma {:induction false} NoWriter(s: SeriesStatus, actions: seq<Action>)
    requires forall i | 0 <= i < |actions| :: !Writes(actions[i])
    ensures SeriesAfterAll(s, actions) == s
  {
    if actions != [] { NoWriter(s, actions[..|actions| - 1]); }
  }

  lemma {:induction false} LastWriterDecides(s: SeriesStatus, p: SeriesStatus, actions: seq<Action>)
    requires exists i :: 0 <= i < |actions| && Writes(actions[i])
    ensures SeriesAfterAll(s, actions) == SeriesAfterAll(p, actions)
  {
    var n := |actions| - 1;
    if !Writes(actions[n]) {
      var i :| 0 <= i < |actions| && Writes(actions[i]);
      assert actions[..n][i] == actions[i];
      LastWriterDecides(s, p, actions[..n]);
    }
  }

  ghost predicate SameWorld(a: World, b: World) { a.series == b.series && forall k :: CellOf(a, k) == CellOf(b, k) }

  /**
   * Whatever a failed attempt at a poll's actions left behind, repeating all of them ends as if nothing had failed.
   */
  lemma RetryEndsTheSame(env: Env, w: World, actions: seq<Action>, known: bool, p: World)
    requires OpensFirst(actions) && ApplyAll(env, w, actions, known).Some?
    requires Interrupted(env, w, actions, known, p)
    ensures ApplyAll(env, p, actions, known).Some?
    ensures SameWorld(ApplyAll(env, p, actions, known).value, ApplyAll(env, w, actions, known).value)
  {
    var j :| && 0 <= j < |actions| && ApplyAll(env, w, actions[..j], known).Some?
             && Partial(env, ApplyAll(env, w, actions[..j], known).value, actions[j], known, p);
    ArenaByArena(env, w, actions, known);
    ArenaByArena(env, p, actions, known);
    forall k ensures CellAfter(env, k, CellOf(p, k), actions, known) == CellAfter(env, k, CellOf(w, k), actions, known) {
      ArenaRetried(env, w, actions, j, known, p, k);
    }
    SeriesOfRetry(env, w, actions, j, known, p);
  }

  lemma ArenaRetried(env: Env, w: World, actions: seq<Action>, j: nat, known: bool, p: World, k: nat)
    requires OpensFirst(actions) && j < |actions| && CellAfter(env, k, CellOf(w, k), actions, known).Some?
    requires ApplyAll(env, w, actions[..j], known).Some?
    requires Partial(env, ApplyAll(env, w, actions[..j], known).value, actions[j], known, p)
    ensures CellAfter(env, k, CellOf(p, k), actions, known) == CellAfter(env, k, CellOf(w, k), actions, known)
  {
    ArenaByArena(env, w, actions[..j], known);
    PrefixSucceeds(env, k, CellOf(w, k), actions, j + 1, known);
    PartialByArena(env, ApplyAll(env, w, actions[..j], known).value, actions[j], known, p, k);
    CellRetried(env, k, CellOf(w, k), actions, j, known, CellOf(p, k));
  }

  lemma SeriesOfRetry(env: Env, w: World, actions: seq<Action>, j: nat, known: bool, p: World)
    requires j < |actions| && ApplyAll(env, w, actions[..j], known).Some?
    requires Partial(env, ApplyAll(env, w, actions[..j], known).value, actions[j], known, p)
    ensures SeriesAfterAll(p.series, actions) == SeriesAfterAll(w.series, actions)
  {
    ArenaByArena(env, w, actions[..j], known);
    SeriesRetried(w.series, actions, j, p.series);
  }

  /** Failed attempt after failed attempt, each from what the one before left. */
  ghost predicate Retries(env: Env, ws: seq<World>, actions: seq<Action>, known: bool) {
    ws != [] && forall i | 0 <= i < |ws| - 1 :: Interrupted(env, ws[i], actions, known, ws[i + 1])
  }

  /** However often a poll's actions failed before, when they go through they end as if nothing had failed. */
  lemma {:induction false} AllRetriesEndTheSame(env: Env, ws: seq<World>, actions: seq<Action>, known: bool)
    requires OpensFirst(actions) && Retries(env, ws, actions, known) && ApplyAll(env, ws[0], actions, known).Some?
    ensures ApplyAll(env, ws[|ws| - 1], actions, known).Some?
    ensures SameWorld(ApplyAll(env, ws[|ws| - 1], actions, known).value, ApplyAll(env, ws[0], actions, known).value)
  {
    if |ws| > 1 {
      var n := |ws| - 1;
      AllRetriesEndTheSame(env, ws[..n], actions, known);
      assert Interrupted(env, ws[n - 1], actions, known, ws[n - 1 + 1]);
      RetryEndsTheSame(env, ws[n - 1], actions, known, ws[n]);
    }
  }

  lemma {:induction false} PrefixSucceeds(env: Env, k: nat, c: Cell, actions: seq<Action>, j: nat, known: bool)
    requires j <= |actions| && CellAfter(env, k, c, actions, known).Some?
    ensures CellAfter(env, k, c, actions[..j], known).Some?
  {
    if j == |actions| {
      assert actions[..j] == actions;
    } else {
      assert actions[..|actions| - 1][..j] == actions[..j];
      PrefixSucceeds(env, k, c, actions[..|actions| - 1], j, known);
    }
  }

  /** The reducer never opens an arena after another action on it. */
  lemma ReducerOpensFirst(s: LifecycleState, snapshot: Option<SeriesSnapshot>, now: int)
    ensures OpensFirst(Process(s, snapshot, now).1)
  {
  }

  /** So for every poll of the reducer: retried after any failures, it ends as if nothing had failed. */
  lemma {:induction false} RepeatedPollEndsTheSame(
    env: Env, ws: seq<World>, s: LifecycleState, snapshot: Option<SeriesSnapshot>, now: int)
    requires Retries(env, ws, Process(s, snapshot, now).1, snapshot.Some?)
    ensures var actions, known := Process(s, snapshot, now).1, snapshot.Some?;
            var undisturbed, end := ApplyAll(env, ws[0], actions, known), ApplyAll(env, ws[|ws| - 1], actions, known);
            undisturbed.Some? ==> end.Some? && SameWorld(end.value, undisturbed.value)
  {
    ReducerOpensFirst(s, snapshot, now);
    if ApplyAll(env, ws[0], Process(s, snapshot, now).1, snapshot.Some?).Some? {
      AllRetriesEndTheSame(env, ws, Process(s, snapshot, now).1, snapshot.Some?);
    }
  }
}

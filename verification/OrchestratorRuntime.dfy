/** The orchestrator as a running object: its awaited writes fail after `budget` of them (cs2/series-orchestrator.ts). */
module OrchestratorRuntime {
  import opened Cs2Types
  import opened SeriesLifecycle
  import opened SeriesOrchestrator

  class Orchestrator {
    const env: Env
    var lifecycleState: LifecycleState
    var cells: map<nat, Cell>
    var series: SeriesStatus
    /** How many more writes succeed, and whether the one that then fails is committed all the same. */
    var budget: nat
    var committed: bool

    function Now(): World
      reads this`cells, this`series
    {
      World(cells, series)
    }

    constructor (env: Env, scheduledStartTime: int, startAfterMap1: bool)
      ensures this.env == env && lifecycleState == InitialState(scheduledStartTime, startAfterMap1)
      ensures Now() == World(map[], Active)
    {
      this.env := env;
      lifecycleState := InitialState(scheduledStartTime, startAfterMap1);
      cells, series, budget, committed := map[], Active, 0, false;
    }

    /** The state moves on only once every action went through; a failed poll leaves it, so the next one repeats them. */
    method Poll(snapshot: Option<SeriesSnapshot>, now: int) returns (ok: bool)
      modifies this`lifecycleState, this`cells, this`series, this`budget
      ensures var (next, actions) := Process(old(lifecycleState), snapshot, now);
              && (ok ==> lifecycleState == next && ApplyAll(env, old(Now()), actions, snapshot.Some?) == Some(Now()))
              && (!ok ==> lifecycleState == old(lifecycleState)
                          && Interrupted(env, old(Now()), actions, snapshot.Some?, Now()))
    {
      var state, actions := ProcessCs2SeriesPoll(lifecycleState, snapshot, now);
      ghost var start := Now();
      for i := 0 to |actions|
        invariant lifecycleState == old(lifecycleState)
        invariant ApplyAll(env, start, actions[..i], snapshot.Some?) == Some(Now())
      {
        assert actions[..i + 1][..i] == actions[..i];
        var done := ApplyAction(actions[i], snapshot.Some?);
        if !done { return false; }
      }
      assert actions[..|actions|] == actions;
      lifecycleState := state;
      ok := true;
    }

    method ApplyAction(a: Action, known: bool) returns (ok: bool)
      modifies this`cells, this`series, this`budget
      ensures ok ==> Apply(env, old(Now()), a, known) == Some(Now())
      ensures !ok ==> Partial(env, old(Now()), a, known, Now())
    {
      match a
      case OpenArena(k) => ok := OpenArena(k, known);
      case MatchLiveDetected(k) => ok := MatchIsLive(k);
      case MatchEnded(_) => ok := Write();
      case SeriesDecided(_) =>
        ok := Write();
        if ok || committed { series := Decided; }
      case CancelArena(k, reason) => ok := CancelFor(k, reason);
    }

    /** One awaited call. */
    method Write() returns (ok: bool)
      modifies this`budget
    {
      ok := budget > 0;
      if ok { budget := budget - 1; }
    }

    method OpenArena(k: nat, known: bool) returns (ok: bool)
      modifies this`cells, this`budget
      ensures ok ==> Apply(env, old(Now()), Action.OpenArena(k), known) == Some(Now())
      ensures !ok ==> Partial(env, old(Now()), Action.OpenArena(k), known, Now())
    {
      var cell := CellOf(Now(), k);
      if cell.mapped {
        cells := cells[k := cell];
        return true;
      }
      if !known { return false; }
      // upsertForMatch keeps the row that an earlier attempt inserted
      ok := Write();
      if !ok && !committed { return; }
      cell := cell.(row := if cell.row.None? then Some(Lobby) else cell.row);
      cells := cells[k := cell];
      if !ok { return; }
      ok := Write();
      if !ok { return; }
      cells := cells[k := cell.(mapped := true)];
      assert cells == old(cells)[k := cell.(mapped := true)];
    }

    method MatchIsLive(k: nat) returns (ok: bool)
      modifies this`cells, this`budget
      ensures ok ==> Apply(env, old(Now()), MatchLiveDetected(k), true) == Some(Now())
      ensures !ok ==> Partial(env, old(Now()), MatchLiveDetected(k), true, Now())
      ensures Apply(env, old(Now()), MatchLiveDetected(k), true) == Apply(env, old(Now()), MatchLiveDetected(k), false)
      ensures !ok ==> Partial(env, old(Now()), MatchLiveDetected(k), false, Now())
    {
      var cell := CellOf(Now(), k);
      if !cell.mapped {
        cells := cells[k := cell];
        return true;
      }
      if cell.row == Some(Cancelled(InsufficientPlayers)) {
        cells := cells[k := cell.(detached := true)];
        ok := Write();
        return;
      }
      if cell.row != Some(Lobby) && cell.row != Some(Live) { return false; }
      if env.paid(k) < 2 {
        ok := CancelRow(k, InsufficientPlayers);
        if ok { ok := Write(); }
        return;
      }
      ok := Write();
      if ok || committed { cells := cells[k := cell.(row := Some(Live))]; }
      if ok { ok := Write(); }
    }

    method CancelFor(k: nat, reason: CancelReason) returns (ok: bool)
      modifies this`cells, this`series, this`budget
      ensures forall known :: ok ==> Apply(env, old(Now()), CancelArena(k, reason), known) == Some(Now())
      ensures forall known :: !ok ==> Partial(env, old(Now()), CancelArena(k, reason), known, Now())
    {
      ok := CancelRow(k, ByAction(reason));
      if !ok { return; }
      if reason.NoShow? || reason.SeriesOver? {
        ok := Write();
        if ok || committed { series := if reason.NoShow? then Invalid else Decided; }
      }
    }

    /** The escrow first, then the row, then the runtime is let go. */
    method CancelRow(k: nat, why: Why) returns (ok: bool)
      modifies this`cells, this`budget
      ensures series == old(series)
      ensures var c := old(CellOf(Now(), k));
              && (ok ==> CancelOn(env, k, c, why).Some? && cells == old(cells)[k := CancelOn(env, k, c, why).value])
              && (!ok ==> cells == old(cells)
                          || (CellOf(Now(), k) in CancelTrail(env, k, c, why) && cells == old(cells)[k := CellOf(Now(), k)]))
    {
      var cell := CellOf(Now(), k);
      if cell.row.None? { return false; }
      if cell.row.value.Cancelled? {
        cells := cells[k := cell.(detached := cell.detached || cell.mapped)];
        return true;
      }
      if !cell.row.value.Lobby? { return false; }
      ok := CancelLobby(k, cell, why);
    }

    method CancelLobby(k: nat, c: Cell, why: Why) returns (ok: bool)
      requires c == CellOf(Now(), k) && c.row == Some(Lobby)
      modifies this`cells, this`budget
      ensures series == old(series)
      ensures ok ==> cells == old(cells)[k := CancelOn(env, k, c, why).value]
      ensures !ok ==> cells == old(cells)
                      || (CellOf(Now(), k) in CancelTrail(env, k, c, why) && cells == old(cells)[k := CellOf(Now(), k)])
    {
      var before := cells;
      ok := Write();
      if !ok && !committed { return; }
      var onChain := c.(chainCancelled := c.chainCancelled || env.onchain(k));
      assert onChain == CancelTrail(env, k, c, why)[0];
      cells := before[k := onChain];
      if !ok { return; }
      ok := Write();
      if !ok && !committed { return; }
      var cancelled := onChain.(row := Some(Cancelled(why)));
      assert cancelled == CancelTrail(env, k, c, why)[1];
      cells := before[k := cancelled];
      if !ok { return; }
      cells := before[k := cancelled.(detached := c.detached || c.mapped)];
    }
  }
}

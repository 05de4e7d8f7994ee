/** What one action of the reducer does to an arena and the series: each change has exactly these causes (cs2/series-orchestrator.ts). */
module OrchestratorRules {
  import opened Cs2Types
  import opened SeriesLifecycle
  import opened SeriesOrchestrator

  predicate IsOff(row: Option<Row>) { row != None && row.value.Cancelled? }

  /** The lobby is given up: by the action, or because fewer than two have paid when its map goes live. */
  predicate GivesUpLobby(env: Env, k: nat, c: Cell, a: Action) {
    c.row == Some(Lobby) && (a.CancelArena? || (a.MatchLiveDetected? && c.mapped && env.paid(k) < 2))
  }

  predicate Refuses(env: Env, k: nat, c: Cell, a: Action, known: bool) {
    || (a.OpenArena? && !c.mapped && !known)
    || (a.CancelArena? && c.row != Some(Lobby) && !IsOff(c.row))
    || (a.MatchLiveDetected? && c.mapped
        && c.row != Some(Lobby) && c.row != Some(Cancelled(InsufficientPlayers)) && (c.row != Some(Live) || env.paid(k) < 2))
  }

  /** An action fails on an arena exactly where it comes too late, or too early to know the series. */
  lemma FailsExactlyWhen(env: Env, k: nat, c: Cell, a: Action, known: bool)
    ensures ActOn(env, k, c, a, known) == None <==> Refuses(env, k, c, a, known)
  {
  }

  /** The row opens, goes live with two paid entries, or is cancelled with its reason; on chain its escrow goes with it. */
  lemma RowChangesExactlyWhen(env: Env, k: nat, c: Cell, a: Action, known: bool)
    requires !Refuses(env, k, c, a, known)
    ensures var next := ActOn(env, k, c, a, known).value;
            && next.row == (if a.OpenArena? && c.row == None && !c.mapped then Some(Lobby)
                            else if GivesUpLobby(env, k, c, a)
                            then Some(Cancelled(if a.CancelArena? then ByAction(a.reason) else InsufficientPlayers))
                            else if a.MatchLiveDetected? && c.mapped && c.row == Some(Lobby) then Some(Live)
                            else c.row)
            && next.mapped == (c.mapped || a.OpenArena?)
            && next.chainCancelled == (c.chainCancelled || (GivesUpLobby(env, k, c, a) && env.onchain(k)))
            && next.detached
               == (c.detached
                   || (c.mapped && (GivesUpLobby(env, k, c, a) || (a.CancelArena? && IsOff(c.row))
                                    || (a.MatchLiveDetected? && c.row == Some(Cancelled(InsufficientPlayers))))))
  {
  }

  /** The series is decided or given up with the actions that say so, and otherwise stays; so does every other arena. */
  lemma SeriesChangesExactlyWhen(env: Env, w: World, a: Action, known: bool, k: nat)
    requires Apply(env, w, a, known) != None
    ensures var next := Apply(env, w, a, known).value;
            && next.series == (if a.SeriesDecided? || (a.CancelArena? && a.reason == SeriesOver) then Decided
                               else if a.CancelArena? && a.reason == NoShow then Invalid
                               else w.series)
            && (CellOf(next, k) != CellOf(w, k) ==> (a.OpenArena? || a.MatchLiveDetected? || a.CancelArena?) && a.matchIndex == k)
  {
  }

  /** The first opening of an arena of a known series makes a lobby, runs it, and touches no escrow. */
  lemma FirstOpeningMakesALobby(env: Env, w: World, k: nat)
    requires k !in w.cells
    ensures Apply(env, w, OpenArena(k), true) == Some(w.(cells := w.cells[k := Cell(Some(Lobby), true, false, false)]))
  {
  }
}

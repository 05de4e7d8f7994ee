/** The gate between paying entries and kickoff (gateway/entry-prepare-store.ts). */
module EntryGate {
  import opened Cs2Types

  /** `waiters` are the closers that wait for the last accepted submission to finish. */
  datatype GateState = GateState(closed: bool, active: nat, waiters: set<nat>)

  const NEW_GATE := GateState(false, 0, {})

  function Accept(g: GateState): GateState { g.(active := g.active + 1) }

  /** The last submission out wakes every waiter. */
  function FinishOne(g: GateState): GateState
    requires g.active > 0
  {
    if g.active == 1 then g.(active := 0, waiters := {}) else g.(active := g.active - 1)
  }

  function Woken(g: GateState): set<nat>
    requires g.active > 0
  {
    if g.active == 1 then g.waiters else {}
  }

  function CloseBy(g: GateState, closer: nat): GateState {
    g.(closed := true, waiters := g.waiters + if g.active == 0 then {} else {closer})
  }

  class Gate {
    var closed: bool
    var active: nat
    var waiters: set<nat>

    function View(): GateState reads this { GateState(closed, active, waiters) }

    constructor ()
      ensures View() == NEW_GATE
    {
      closed, active, waiters := false, 0, {};
    }
  }

  /** What an accepted request holds: it is finished once, however often it is called. */
  class Submission {
    const gate: Gate
    var finished: bool

    constructor (gate: Gate)
      ensures this.gate == gate && !finished
    {
      this.gate := gate;
      finished := false;
    }

    method Finish() returns (woken: set<nat>)
      requires !finished ==> gate.active > 0
      modifies this, gate
      ensures finished
      ensures old(finished) ==> gate.View() == old(gate.View()) && woken == {}
      ensures !old(finished) ==> gate.View() == FinishOne(old(gate.View())) && woken == Woken(old(gate.View()))
    {
      woken := {};
      if finished { return; }
      finished := true;
      gate.active := gate.active - 1;
      if gate.active == 0 {
        woken := gate.waiters;
        gate.waiters := {};
      }
    }
  }

  class EntryGates {
    var gates: map<Uuid, Gate>

    constructor ()
      ensures gates == map[]
    {
      gates := map[];
    }

    function ViewOf(arenaId: Uuid): GateState
      reads this, if arenaId in gates then {gates[arenaId]} else {}
    {
      if arenaId in gates then gates[arenaId].View() else NEW_GATE
    }

    method GateOf(arenaId: Uuid) returns (gate: Gate)
      modifies this
      ensures gates == old(gates)[arenaId := gate] && gate.View() == old(ViewOf(arenaId))
      ensures if arenaId in old(gates) then gate == old(gates)[arenaId] else fresh(gate)
    {
      if arenaId in gates {
        gate := gates[arenaId];
      } else {
        gate := new Gate();
      }
      gates := gates[arenaId := gate];
    }

    method BeginEntrySubmission(arenaId: Uuid) returns (submission: Submission?)
      modifies this, if arenaId in gates then {gates[arenaId]} else {}
      ensures gates.Keys == old(gates.Keys) + {arenaId}
      ensures submission == null <==> old(ViewOf(arenaId)).closed
      ensures submission == null ==> ViewOf(arenaId) == old(ViewOf(arenaId))
      ensures submission != null ==>
        && fresh(submission) && !submission.finished && submission.gate == gates[arenaId]
        && ViewOf(arenaId) == Accept(old(ViewOf(arenaId)))
    {
      var gate := GateOf(arenaId);
      if gate.closed { return null; }
      gate.active := gate.active + 1;
      submission := new Submission(gate);
    }

    /** The gate is closed at once; the call returns only after `mustWait` was answered by a wake-up. */
    method CloseEntrySubmissions(arenaId: Uuid, closer: nat) returns (mustWait: bool)
      modifies this, if arenaId in gates then {gates[arenaId]} else {}
      ensures gates.Keys == old(gates.Keys) + {arenaId}
      ensures ViewOf(arenaId) == CloseBy(old(ViewOf(arenaId)), closer)
      ensures mustWait == (ViewOf(arenaId).active > 0)
    {
      var gate := GateOf(arenaId);
      gate.closed := true;
      if gate.active == 0 { return false; }
      gate.waiters := gate.waiters + {closer};
      mustWait := true;
    }

    method ReleaseEntryGate(arenaId: Uuid)
      modifies this
      ensures gates == old(gates) - {arenaId} && ViewOf(arenaId) == NEW_GATE
    {
      gates := gates - {arenaId};
    }
  }
}

/** Entry requests, kickoff, cancellation and refunds of one arena in any interleaving (gateway/rest.ts, series-orchestrator.ts). */
module EntrySystem {
  import opened Cs2Types
  import opened EntryGate

  datatype Status = Lobby | Live | Finished | Cancelled

  /** A submit request: it has read the arena row, or it was accepted by the gate. */
  datatype Handler = Loaded(sawLobby: bool) | InFlight

  /** Whoever closes entries: it waits for the gate, the close returned, or it has counted the paid passes. */
  datatype Closer = Waiting | Closed | Counted(paid: nat)

  datatype System = System(
    gate: GateState, handlers: map<nat, Handler>, closers: map<nat, Closer>,
    status: Status, paid: set<Uuid>, refunded: set<Uuid>)

  const START := System(NEW_GATE, map[], map[], Lobby, {}, {})

  datatype Move =
    | LoadArena(h: nat)           // the request reads the arena row
    | Begin(h: nat)               // and goes on, on what it read, to the gate
    | Pay(h: nat, user: Uuid)     // an accepted request pays and its pass is written; the escrow is not looked at here
    | Finish(h: nat)              // the request ends, in success or failure
    | Close(c: nat)
    | CountPaid(c: nat)
    | GoLive(c: nat)
    | CancelLobby(c: nat)
    | GiveUp(c: nat)
    | FinishArena
    | CancelLiveIfEmpty
    | Refund(user: Uuid)
    | Release                     // of a terminal arena's gate, whoever is still on the way
    | Restart

  predicate IsPast(c: Closer) { !c.Waiting? }

  predicate IsOver(s: System) { s.status.Finished? || s.status.Cancelled? }

  predicate NoStaleRequest(handlers: map<nat, Handler>) { forall h | h in handlers :: handlers[h] != Loaded(true) }

  /** The closers that were waiting in `woken` go on. */
  function Wake(closers: map<nat, Closer>, woken: set<nat>): map<nat, Closer> {
    map c | c in closers :: if c in woken then Closed else closers[c]
  }

  /** One step; a step that is not possible in `s` does nothing. */
  function Step(s: System, m: Move): System {
    match m
    case LoadArena(h) =>
      if h in s.handlers then s else s.(handlers := s.handlers[h := Loaded(s.status.Lobby?)])
    case Begin(h) =>
      if h !in s.handlers || !s.handlers[h].Loaded? then s
      else if !s.handlers[h].sawLobby || s.gate.closed then s.(handlers := s.handlers - {h})
      else s.(handlers := s.handlers[h := InFlight], gate := Accept(s.gate))
    case Pay(h, user) =>
      if h !in s.handlers || !s.handlers[h].InFlight? || user in s.paid || user in s.refunded then s
      else s.(paid := s.paid + {user})
    case Finish(h) =>
      if h !in s.handlers || !s.handlers[h].InFlight? || s.gate.active == 0 then s
      else s.(handlers := s.handlers - {h}, gate := FinishOne(s.gate), closers := Wake(s.closers, Woken(s.gate)))
    case Close(c) =>
      if c in s.closers then s
      else s.(gate := CloseBy(s.gate, c), closers := s.closers[c := if s.gate.active == 0 then Closed else Waiting])
    case CountPaid(c) =>
      if c in s.closers && s.closers[c].Closed? then s.(closers := s.closers[c := Counted(|s.paid|)]) else s
    case GoLive(c) =>
      if c !in s.closers || !s.closers[c].Counted? then s
      else if s.closers[c].paid >= 2 && (s.status.Lobby? || s.status.Live?)
      then s.(status := Live, closers := s.closers - {c})
      else s.(closers := s.closers - {c})
    case CancelLobby(c) =>
      if c !in s.closers || s.closers[c].Waiting? then s
      else s.(status := if s.status.Lobby? then Cancelled else s.status, closers := s.closers - {c})
    case GiveUp(c) =>
      if c in s.closers && IsPast(s.closers[c]) then s.(closers := s.closers - {c}) else s
    case FinishArena => if s.status.Live? then s.(status := Finished) else s
    case CancelLiveIfEmpty => if s.status.Live? && s.paid == {} then s.(status := Cancelled) else s
    case Refund(user) =>
      if s.status.Cancelled? && user in s.paid then s.(paid := s.paid - {user}, refunded := s.refunded + {user}) else s
    case Release =>
      if IsOver(s) then s.(gate := NEW_GATE) else s
    case Restart => s.(gate := NEW_GATE, handlers := map[], closers := map[])
  }

  function Run(s: System, moves: seq<Move>): System {
    if moves == [] then s else Step(Run(s, moves[..|moves| - 1]), moves[|moves| - 1])
  }

  // ----- what every interleaving keeps

  function Accepted(handlers: map<nat, Handler>): set<nat> { set h | h in handlers && handlers[h].InFlight? }

  /** Nothing is in flight and nothing can be accepted any more. */
  ghost predicate Sealed(s: System) {
    && Accepted(s.handlers) == {}
    && (s.gate.closed || (!s.status.Lobby? && NoStaleRequest(s.handlers)))
  }

  /** The gate counts the accepted requests, and knows every waiting closer; nobody waits for nothing. */
  ghost predicate GateIsRight(gate: GateState, handlers: map<nat, Handler>, closers: map<nat, Closer>) {
    && gate.active == |Accepted(handlers)|
    && (forall c :: c in gate.waiters <==> c in closers && closers[c].Waiting?)
    && (gate.waiters != {} ==> gate.closed && gate.active > 0)
  }

  ghost predicate CountsAreRight(s: System) {
    && (s.status.Live? || s.status.Finished? ==> |s.paid| >= 2)
    && (s.status.Lobby? || s.status.Live? ==>
          forall c | c in s.closers && s.closers[c].Counted? :: s.closers[c].paid == |s.paid|)
  }

  ghost predicate SomeoneIsPast(closers: map<nat, Closer>) { exists c :: c in closers && IsPast(closers[c]) }

  ghost predicate Inv(s: System) {
    && GateIsRight(s.gate, s.handlers, s.closers)
    && (!s.status.Lobby? || SomeoneIsPast(s.closers) ==> Sealed(s))
    && CountsAreRight(s)
  }

  lemma AcceptedSets(handlers: map<nat, Handler>, h: nat)
    ensures Accepted(handlers - {h}) == Accepted(handlers) - {h}
    ensures forall x: Handler :: Accepted(handlers[h := x]) == if x.InFlight? then Accepted(handlers) + {h} else Accepted(handlers) - {h}
  {
  }

  lemma LoadKeeps(s: System, h: nat)
    requires Inv(s)
    ensures Inv(Step(s, LoadArena(h)))
  {
    if h !in s.handlers {
      AcceptedSets(s.handlers, h);
      assert h !in Accepted(s.handlers);
      assert Accepted(s.handlers[h := Loaded(s.status.Lobby?)]) == Accepted(s.handlers);
    }
  }

  lemma BeginKeeps(s: System, h: nat)
    requires Inv(s)
    ensures Inv(Step(s, Begin(h)))
  {
    if h in s.handlers && s.handlers[h].Loaded? {
      AcceptedSets(s.handlers, h);
      assert h !in Accepted(s.handlers);
      if !s.handlers[h].sawLobby || s.gate.closed {
        assert Accepted(s.handlers - {h}) == Accepted(s.handlers);
      } else {
        assert !Sealed(s);
        assert |Accepted(s.handlers) + {h}| == s.gate.active + 1;
      }
    }
  }

  lemma PayKeeps(s: System, h: nat, user: Uuid)
    requires Inv(s)
    ensures Inv(Step(s, Pay(h, user)))
  {
    if h in s.handlers && s.handlers[h].InFlight? {
      assert h in Accepted(s.handlers);
      assert !SomeoneIsPast(s.closers);
    }
  }

  lemma FinishKeeps(s: System, h: nat)
    requires Inv(s)
    ensures Inv(Step(s, Finish(h)))
  {
    if h in s.handlers && s.handlers[h].InFlight? {
      AcceptedSets(s.handlers, h);
      assert h in Accepted(s.handlers);
      assert !SomeoneIsPast(s.closers) && s.status.Lobby?;
      assert |Accepted(s.handlers) - {h}| == s.gate.active - 1;
      if s.gate.active == 1 {
        assert Accepted(s.handlers) - {h} == {};
        LastOneOut(s, h);
      } else {
        assert Wake(s.closers, {}) == s.closers;
      }
    }
  }

  /** When the last accepted request ends, everybody who waited goes on, behind a closed gate. */
  lemma LastOneOut(s: System, h: nat)
    requires Inv(s) && h in s.handlers && s.handlers[h].InFlight? && s.gate.active == 1 && s.status.Lobby?
    requires Accepted(s.handlers - {h}) == {} && !SomeoneIsPast(s.closers)
    ensures Inv(Step(s, Finish(h)))
  {
    var next := Step(s, Finish(h));
    forall c | c in next.closers ensures !next.closers[c].Waiting? && !next.closers[c].Counted? {
      assert !IsPast(s.closers[c]);
      assert c in s.gate.waiters;
    }
    if c :| c in next.closers && IsPast(next.closers[c]) {
      assert c in s.gate.waiters;
      assert next.gate.closed;
    }
  }

  lemma CloseKeeps(s: System, c: nat)
    requires Inv(s)
    ensures Inv(Step(s, Close(c)))
  {
    if c !in s.closers {
      var next := Step(s, Close(c));
      assert next.handlers == s.handlers && next.gate.closed;
      if s.gate.active == 0 { assert Accepted(s.handlers) == {}; }
    }
  }

  lemma CountKeeps(s: System, c: nat)
    requires Inv(s)
    ensures Inv(Step(s, CountPaid(c)))
  {
    if c in s.closers && s.closers[c].Closed? { assert IsPast(s.closers[c]); }
  }

  /** A closer that is past the gate leaves. */
  lemma LeaveKeeps(s: System, c: nat)
    requires Inv(s) && c in s.closers && IsPast(s.closers[c])
    ensures Inv(s.(closers := s.closers - {c})) && Sealed(s)
  {
    var next := s.(closers := s.closers - {c});
    if d :| d in next.closers && IsPast(next.closers[d]) { assert d in s.closers; }
  }

  lemma GoLiveKeeps(s: System, c: nat)
    requires Inv(s)
    ensures Inv(Step(s, GoLive(c)))
  {
    if c in s.closers && s.closers[c].Counted? { LeaveKeeps(s, c); }
  }

  lemma CancelKeeps(s: System, c: nat)
    requires Inv(s)
    ensures Inv(Step(s, CancelLobby(c))) && Inv(Step(s, GiveUp(c)))
  {
    if c in s.closers && IsPast(s.closers[c]) { LeaveKeeps(s, c); }
  }

  lemma ReleaseKeeps(s: System)
    requires Inv(s) && NoStaleRequest(s.handlers)
    ensures Inv(Step(s, Release))
  {
    if IsOver(s) { assert Accepted(s.handlers) == {}; }
  }

  lemma RestartKeeps(s: System)
    requires Inv(s)
    ensures Inv(Step(s, Restart))
  {
    assert Accepted(map[]) == {};
  }

  lemma StepKeeps(s: System, m: Move)
    requires Inv(s) && (m.Release? && IsOver(s) ==> NoStaleRequest(s.handlers))
    ensures Inv(Step(s, m))
  {
    match m
    case LoadArena(h) => LoadKeeps(s, h);
    case Begin(h) => BeginKeeps(s, h);
    case Pay(h, user) => PayKeeps(s, h, user);
    case Finish(h) => FinishKeeps(s, h);
    case Close(c) => CloseKeeps(s, c);
    case CountPaid(c) => CountKeeps(s, c);
    case GoLive(c) => GoLiveKeeps(s, c);
    case CancelLobby(c) => CancelKeeps(s, c);
    case GiveUp(c) => CancelKeeps(s, c);
    case Release => if IsOver(s) { ReleaseKeeps(s); }
    case Restart => RestartKeeps(s);
    case _ =>
  }

  /** No gate is released while a request that still believes in the lobby is outstanding. */
  ghost predicate Careful(s: System, moves: seq<Move>) {
    forall k | 0 <= k < |moves| && moves[k].Release? && IsOver(Run(s, moves[..k])) ::
      NoStaleRequest(Run(s, moves[..k]).handlers)
  }

  lemma CarefulBefore(s: System, moves: seq<Move>)
    requires moves != [] && Careful(s, moves)
    ensures Careful(s, moves[..|moves| - 1])
    ensures var before := Run(s, moves[..|moves| - 1]);
            moves[|moves| - 1].Release? && IsOver(before) ==> NoStaleRequest(before.handlers)
  {
    var shorter := moves[..|moves| - 1];
    forall k | 0 <= k < |shorter| && shorter[k].Release? && IsOver(Run(s, shorter[..k]))
      ensures NoStaleRequest(Run(s, shorter[..k]).handlers)
    {
      assert shorter[..k] == moves[..k];
    }
  }

  lemma {:induction false} EveryRunKeeps(moves: seq<Move>)
    requires Careful(START, moves)
    ensures Inv(Run(START, moves))
  {
    if moves == [] {
      assert Accepted(map[]) == {};
    } else {
      CarefulBefore(START, moves);
      EveryRunKeeps(moves[..|moves| - 1]);
      StepKeeps(Run(START, moves[..|moves| - 1]), moves[|moves| - 1]);
    }
  }

  // ----- what that means

  /** Once a close returned, nothing is in flight and no request gets through until the gate is released. */
  lemma {:induction false} AfterTheCloseNothingIsInFlight(moves: seq<Move>, c: nat, h: nat)
    requires Careful(START, moves)
    ensures var s := Run(START, moves);
            c in s.closers && IsPast(s.closers[c]) ==>
              Accepted(s.handlers) == {} && Accepted(Step(s, Begin(h)).handlers) == {}
  {
    EveryRunKeeps(moves);
    AcceptedSets(Run(START, moves).handlers, h);
  }

  /** While somebody waits, a request is in flight; the one that ends last lets all of them go on. */
  lemma {:induction false} NobodyWaitsForNothing(moves: seq<Move>, c: nat)
    requires Careful(START, moves)
    ensures var s := Run(START, moves);
            c in s.closers && s.closers[c].Waiting? ==>
              && Accepted(s.handlers) != {}
              && forall h | Accepted(s.handlers) == {h} :: Step(s, Finish(h)).closers[c] == Closed
  {
    EveryRunKeeps(moves);
  }

  lemma PaidPassesStay(s: System, m: Move)
    requires Inv(s) && (s.status.Live? || s.status.Finished?) && |s.paid| >= 2
    ensures var next := Step(s, m);
            (next.status.Live? || next.status.Finished?) && next.paid == s.paid && next.refunded == s.refunded
  {
    assert forall h | h in s.handlers && s.handlers[h].InFlight? :: h in Accepted(s.handlers);
  }

  lemma {:induction false} TwoPaidPassesStay(s: System, moves: seq<Move>)
    requires Inv(s) && (s.status.Live? || s.status.Finished?) && |s.paid| >= 2 && Careful(s, moves)
    ensures var end := Run(s, moves);
            Inv(end) && (end.status.Live? || end.status.Finished?) && end.paid == s.paid && end.refunded == s.refunded
  {
    if moves != [] {
      CarefulBefore(s, moves);
      TwoPaidPassesStay(s, moves[..|moves| - 1]);
      StepKeeps(Run(s, moves[..|moves| - 1]), moves[|moves| - 1]);
      PaidPassesStay(Run(s, moves[..|moves| - 1]), moves[|moves| - 1]);
    }
  }

  /** An arena goes live only with two paid passes, and no later step of any kind adds, refunds or cancels one. */
  lemma {:induction false} LiveMeansTwoPaidForGood(moves: seq<Move>, later: seq<Move>)
    requires Careful(START, moves) && Careful(Run(START, moves), later)
    ensures var s, end := Run(START, moves), Run(Run(START, moves), later);
            s.status.Live? ==> |s.paid| >= 2 && end.paid == s.paid && (end.status.Live? || end.status.Finished?)
  {
    EveryRunKeeps(moves);
    if Run(START, moves).status.Live? { TwoPaidPassesStay(Run(START, moves), later); }
  }

  // ----- when a gate may be released

  /** Over and empty of anybody who could still get in: this lasts, whatever happens. */
  ghost predicate Shut(s: System) { IsOver(s) && Accepted(s.handlers) == {} && NoStaleRequest(s.handlers) }

  lemma ShutStays(s: System, m: Move)
    requires Shut(s)
    ensures Shut(Step(s, m)) && Step(s, m).paid <= s.paid
  {
    assert forall h | h in s.handlers :: s.handlers[h].InFlight? ==> h in Accepted(s.handlers);
    var next := Step(s, m);
    assert forall h | h in next.handlers :: !next.handlers[h].InFlight?;
  }

  lemma {:induction false} NobodyGetsIn(s: System, moves: seq<Move>)
    requires Shut(s)
    ensures Shut(Run(s, moves)) && Run(s, moves).paid <= s.paid
  {
    if moves != [] {
      NobodyGetsIn(s, moves[..|moves| - 1]);
      ShutStays(Run(s, moves[..|moves| - 1]), moves[|moves| - 1]);
    }
  }

  /** After the release of the gate, no continuation ever takes another player's money. */
  ghost predicate ReleaseIsSafe(s: System) { forall moves: seq<Move> :: Run(Step(s, Release), moves).paid <= s.paid }

  /** That is so when no request that read the lobby is outstanding; whether it must be depends on the escrow. */
  lemma {:induction false} ACarefulReleaseIsSafe(s: System)
    requires Inv(s) && IsOver(s) && NoStaleRequest(s.handlers)
    ensures ReleaseIsSafe(s)
  {
    forall moves: seq<Move> ensures Run(Step(s, Release), moves).paid <= s.paid { NobodyGetsIn(Step(s, Release), moves); }
  }
}

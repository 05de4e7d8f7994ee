/** The entry gate and the money of an on-chain arena together: two step systems on one arena row and one table of passes. */
module GateAndMoney {
  import opened Cs2Types
  import opened EntryGate
  import Gate = EntrySystem
  import Money = ArenaMoney
  import MoneyReach

  datatype Joint = Joint(gate: Gate.System, money: Money.Book)

  const START := Joint(Gate.START, Money.Start(true))

  /**
   * A step of one of them or, where it writes the row or a pass, of both at once. A submitted entry asks the gate whether
   * its request was accepted and the chain whether the escrow is open; nobody asks for the row again.
   */
  datatype Move =
    | OfGate(gate: Gate.Move)
    | OfMoney(money: Money.Move)
    | OfBoth(gate: Gate.Move, money: Money.Move)
    | Entry(h: nat, user: Uuid)

  predicate CanEnter(s: Joint, h: nat, user: Uuid) {
    && h in s.gate.handlers && s.gate.handlers[h].InFlight?
    && s.money.escrow.EscrowOpen? && user !in s.money.passes
  }

  function Step(s: Joint, m: Move): Joint {
    match m
    case OfGate(g) => if g.Pay? then s else s.(gate := Gate.Step(s.gate, g))
    case OfMoney(b) => if b.Enter? then s else s.(money := Money.Step(s.money, b))
    case OfBoth(g, b) => if g.Pay? || b.Enter? then s else Joint(Gate.Step(s.gate, g), Money.Step(s.money, b))
    case Entry(h, user) =>
      if !CanEnter(s, h, user) then s
      else Joint(Gate.Step(s.gate, Gate.Pay(h, user)), s.money.(passes := s.money.passes[user := Money.Paid]))
  }

  function Run(s: Joint, moves: seq<Move>): Joint {
    if moves == [] then s else Step(Run(s, moves[..|moves| - 1]), moves[|moves| - 1])
  }

  function RefundedUsers(passes: map<Uuid, Money.Pass>): set<Uuid> {
    set u | u in passes && passes[u] == Money.Refunded
  }

  predicate SameStatus(g: Gate.Status, b: Money.Status) {
    (g.Lobby? <==> b.Lobby?) && (g.Live? <==> b.Live?) && (g.Finished? <==> b.Finished?) && (g.Cancelled? <==> b.Cancelled?)
  }

  /** Both see the one row and the one table. */
  predicate SameRow(s: Joint) {
    && SameStatus(s.gate.status, s.money.status)
    && s.gate.paid == Money.PaidUsers(s.money.passes) && s.gate.refunded == RefundedUsers(s.money.passes)
  }

  /** A run of both in which they never disagree about row and passes. */
  ghost predicate Legal(s: Joint, moves: seq<Move>) {
    moves != [] ==> Legal(s, moves[..|moves| - 1]) && SameRow(Run(s, moves))
  }

  predicate Releases(m: Move) { (m.OfGate? || m.OfBoth?) && m.gate.Release? }

  /** The gate is never released while a request that read the lobby is outstanding. */
  ghost predicate Careful(s: Joint, moves: seq<Move>) {
    moves != [] ==>
      var before := Run(s, moves[..|moves| - 1]);
      && Careful(s, moves[..|moves| - 1])
      && (Releases(moves[|moves| - 1]) && Gate.IsOver(before.gate) ==> Gate.NoStaleRequest(before.gate.handlers))
  }

  lemma OneMore(s: Joint, moves: seq<Move>, m: Move)
    requires Legal(s, moves) && SameRow(Step(Run(s, moves), m))
    ensures Legal(s, moves + [m]) && Run(s, moves + [m]) == Step(Run(s, moves), m)
    ensures Careful(s, moves) && !Releases(m) ==> Careful(s, moves + [m])
  {
    assert (moves + [m])[..|moves|] == moves;
  }

  // ----- what holds while the gate is released with care

  ghost predicate Inv(s: Joint) { Gate.Inv(s.gate) && Money.Inv(s.money) && SameRow(s) && !s.money.escrow.OffChain? }

  /** An entry is one that the money side expects, in the lobby: the gate sees to that. */
  lemma EntriesComeInTheLobby(s: Joint, h: nat, user: Uuid)
    requires Inv(s) && CanEnter(s, h, user)
    ensures s.money.status.Lobby? && Step(s, Entry(h, user)).money == Money.Step(s.money, Money.Enter(user))
  {
    assert h in Gate.Accepted(s.gate.handlers);
  }

  lemma EscrowStays(b: Money.Book, m: Money.Move)
    ensures Money.Step(b, m).escrow.OffChain? <==> b.escrow.OffChain?
    ensures Money.Step(b, m).escrow.EscrowOpen? ==> b.escrow.EscrowOpen?
  {
  }

  lemma StepKeeps(s: Joint, m: Move)
    requires Inv(s) && SameRow(Step(s, m))
    requires Releases(m) && Gate.IsOver(s.gate) ==> Gate.NoStaleRequest(s.gate.handlers)
    ensures Inv(Step(s, m))
  {
    match m
    case OfGate(g) => Gate.StepKeeps(s.gate, g);
    case OfMoney(b) =>
      Money.StepKeeps(s.money, b);
      EscrowStays(s.money, b);
    case OfBoth(g, b) =>
      Gate.StepKeeps(s.gate, g);
      Money.StepKeeps(s.money, b);
      EscrowStays(s.money, b);
    case Entry(h, user) =>
      if CanEnter(s, h, user) {
        EntriesComeInTheLobby(s, h, user);
        Gate.StepKeeps(s.gate, Gate.Pay(h, user));
        Money.StepKeeps(s.money, Money.Enter(user));
      }
  }

  lemma StartIsSound()
    ensures Inv(START)
  {
    Gate.EveryRunKeeps([]);
    Money.EveryRunKeeps(true, []);
    assert Money.PaidUsers(map[]) == {} && RefundedUsers(map[]) == {};
  }

  lemma {:induction false} EveryCarefulRunKeeps(moves: seq<Move>)
    requires Legal(START, moves) && Careful(START, moves)
    ensures Inv(Run(START, moves))
  {
    if moves == [] {
      StartIsSound();
    } else {
      EveryCarefulRunKeeps(moves[..|moves| - 1]);
      StepKeeps(Run(START, moves[..|moves| - 1]), moves[|moves| - 1]);
    }
  }

  /** The row is not asked when an entry is paid, and yet it is always a lobby then. */
  lemma {:induction false} PassesComeInInTheLobby(moves: seq<Move>, h: nat, user: Uuid)
    requires Legal(START, moves) && Careful(START, moves)
    ensures var s := Run(START, moves); CanEnter(s, h, user) ==> s.money.status.Lobby?
  {
    EveryCarefulRunKeeps(moves);
    if CanEnter(Run(START, moves), h, user) { EntriesComeInTheLobby(Run(START, moves), h, user); }
  }

  /**
   * Behind the gate an arena that went live, or was finished, has two paid entries at least, so it is never cancelled any
   * more; whoever is paid, none of the entries was given back; and its money still gets out exactly if its escrow is paid,
   * or is open with the arena live or the finisher's payout still to come.
   */
  lemma {:induction false} LiveMoneyBehindTheGate(moves: seq<Move>)
    requires Legal(START, moves) && Careful(START, moves)
    ensures var b := Run(START, moves).money;
            b.status.Live? || b.status.Finished? ==>
              && |Money.PaidUsers(b.passes)| >= 2
              && !Money.SomeRefund(b.passes) && b.chainRefunds == {}
              && (forall luck :: Money.Step(b, Money.SkipLive(luck)) == b)
              && (MoneyReach.CanResolve(b) <==>
                    || b.escrow.EscrowSettled?
                    || (b.escrow.EscrowOpen? && (b.status.Live? || MoneyReach.SomeoneWon(b))))
  {
    EveryCarefulRunKeeps(moves);
    var b := Run(START, moves).money;
    if b.status.Live? || b.status.Finished? {
      assert Money.PaidUsers(b.passes) != {};
      MoneyReach.ReachableMoneyGetsOutExactlyWhen(b);
    }
  }

  // ----- when a gate may be released

  /** A request that read the lobby or was accepted, and so has still to pay. */
  predicate SomeoneOnTheWay(handlers: map<nat, Gate.Handler>) {
    exists h :: h in handlers && (handlers[h] == Gate.Loaded(true) || handlers[h].InFlight?)
  }

  function Released(s: Joint): Joint { Step(s, OfGate(Gate.Release)) }

  /** Some continuation takes the money of a player who has no paid pass yet. */
  ghost predicate CanTakeAnEntry(s: Joint) {
    exists moves: seq<Move> :: Legal(s, moves) && !(Run(s, moves).gate.paid <= s.gate.paid)
  }

  ghost predicate NoWayIn(s: Joint) {
    && Gate.IsOver(s.gate) && SameRow(s)
    && (s.money.escrow.EscrowOpen? ==> !SomeoneOnTheWay(s.gate.handlers))
  }

  lemma NobodySetsOut(g: Gate.System, m: Gate.Move)
    requires Gate.IsOver(g) && !m.Pay?
    ensures Gate.IsOver(Gate.Step(g, m)) && Gate.Step(g, m).paid <= g.paid
    ensures !SomeoneOnTheWay(g.handlers) ==> !SomeoneOnTheWay(Gate.Step(g, m).handlers)
  {
    if !SomeoneOnTheWay(g.handlers) {
      var next := Gate.Step(g, m).handlers;
      forall h | h in next ensures next[h] != Gate.Loaded(true) && !next[h].InFlight? {
        if h in g.handlers { assert g.handlers[h] != Gate.Loaded(true) && !g.handlers[h].InFlight?; }
      }
    }
  }

  lemma NoWayInStays(s: Joint, m: Move)
    requires NoWayIn(s) && SameRow(Step(s, m))
    ensures NoWayIn(Step(s, m)) && Step(s, m).gate.paid <= s.gate.paid
  {
    if (m.OfGate? || m.OfBoth?) && !m.gate.Pay? { NobodySetsOut(s.gate, m.gate); }
    if m.OfMoney? || m.OfBoth? { EscrowStays(s.money, m.money); }
  }

  lemma {:induction false} NobodyComesIn(s: Joint, moves: seq<Move>)
    requires NoWayIn(s) && Legal(s, moves)
    ensures NoWayIn(Run(s, moves)) && Run(s, moves).gate.paid <= s.gate.paid
  {
    if moves != [] {
      NobodyComesIn(s, moves[..|moves| - 1]);
      NoWayInStays(Run(s, moves[..|moves| - 1]), moves[|moves| - 1]);
    }
  }

  lemma AnEntryIsTaken(s: Joint, h: nat)
    requires SameRow(s) && s.money.escrow.EscrowOpen? && !s.gate.gate.closed
    requires h in s.gate.handlers && (s.gate.handlers[h] == Gate.Loaded(true) || s.gate.handlers[h].InFlight?)
    ensures CanTakeAnEntry(s)
  {
    if s.gate.handlers[h].Loaded? {
      OneMore(s, [], OfGate(Gate.Begin(h)));
      TheAcceptedOneEnters(s, [] + [OfGate(Gate.Begin(h))], h);
    } else {
      TheAcceptedOneEnters(s, [], h);
    }
  }

  lemma TheAcceptedOneEnters(s: Joint, moves: seq<Move>, h: nat)
    requires Legal(s, moves)
    requires var there := Run(s, moves);
             && SameRow(there) && there.money.escrow.EscrowOpen? && there.gate.paid == s.gate.paid
             && h in there.gate.handlers && there.gate.handlers[h].InFlight?
    ensures CanTakeAnEntry(s)
  {
    var there := Run(s, moves);
    var user := UnusedId(there.money.passes.Keys);
    assert user !in there.gate.paid;
    EntryWritesOnePass(there, h, user);
    OneMore(s, moves, Entry(h, user));
    assert user in Run(s, moves + [Entry(h, user)]).gate.paid;
  }

  lemma EntryWritesOnePass(s: Joint, h: nat, user: Uuid)
    requires SameRow(s) && CanEnter(s, h, user)
    ensures var next := Step(s, Entry(h, user)); SameRow(next) && next.gate.paid == s.gate.paid + {user}
  {
    var next := Step(s, Entry(h, user));
    assert Money.PaidUsers(next.money.passes) == Money.PaidUsers(s.money.passes) + {user};
    assert RefundedUsers(next.money.passes) == RefundedUsers(s.money.passes);
  }

  lemma {:induction false} LegalRunsAgree(moves: seq<Move>)
    requires Legal(START, moves)
    ensures SameRow(Run(START, moves))
  {
    if moves == [] { StartIsSound(); }
  }

  /**
   * In every reachable arena that is over, however its gates were released before: after the release of its gate some
   * continuation takes another player's money if and only if a request is on the way and the escrow is still open.
   */
  lemma {:induction false} ReleaseTakesMoneyExactlyWhen(moves: seq<Move>)
    requires Legal(START, moves)
    ensures var s := Run(START, moves);
            Gate.IsOver(s.gate) ==>
              (CanTakeAnEntry(Released(s)) <==> s.money.escrow.EscrowOpen? && SomeoneOnTheWay(s.gate.handlers))
  {
    var s := Run(START, moves);
    LegalRunsAgree(moves);
    if Gate.IsOver(s.gate) {
      var r := Released(s);
      assert r.money == s.money && r.gate.handlers == s.gate.handlers && r.gate.paid == s.gate.paid;
      if s.money.escrow.EscrowOpen? && SomeoneOnTheWay(s.gate.handlers) {
        var h :| h in s.gate.handlers && (s.gate.handlers[h] == Gate.Loaded(true) || s.gate.handlers[h].InFlight?);
        AnEntryIsTaken(r, h);
      } else {
        forall more: seq<Move> | Legal(r, more) ensures Run(r, more).gate.paid <= r.gate.paid { NobodyComesIn(r, more); }
      }
    }
  }

  /** Where all releases before were careful, the request on the way is one that read the lobby. */
  lemma {:induction false} NextReleaseTakesMoneyExactlyWhen(moves: seq<Move>)
    requires Legal(START, moves) && Careful(START, moves)
    ensures var s := Run(START, moves);
            Gate.IsOver(s.gate) ==>
              (CanTakeAnEntry(Released(s)) <==> s.money.escrow.EscrowOpen? && !Gate.NoStaleRequest(s.gate.handlers))
  {
    var s := Run(START, moves);
    EveryCarefulRunKeeps(moves);
    ReleaseTakesMoneyExactlyWhen(moves);
    if Gate.IsOver(s.gate) {
      assert Gate.Accepted(s.gate.handlers) == {};
      assert forall h | h in s.gate.handlers && s.gate.handlers[h].InFlight? :: h in Gate.Accepted(s.gate.handlers);
    }
  }

  // ----- and it happens

  ghost predicate Reaches(moves: seq<Move>, s: Joint) {
    Legal(START, moves) && Careful(START, moves) && Run(START, moves) == s
  }

  lemma Plus(before: seq<Move>, s: Joint, m: Move, next: Joint) returns (moves: seq<Move>)
    requires Reaches(before, s) && SameRow(next) && Step(s, m) == next && !Releases(m)
    ensures Reaches(moves, next)
  {
    OneMore(START, before, m);
    moves := before + [m];
  }

  /** The book of two paid players, with the given row and jobs. */
  function TwoPaid(status: Money.Status, jobs: map<nat, Money.Job>): Money.Book {
    Money.Book(status, Money.EscrowOpen, MoneyReach.TWO_PAID, jobs, None, [], {})
  }

  lemma TwoPaidAgree()
    ensures Money.PaidUsers(MoneyReach.TWO_PAID) == {1, 2} && RefundedUsers(MoneyReach.TWO_PAID) == {}
    ensures Money.PaidUsers(map[1 := Money.Paid]) == {1} && RefundedUsers(map[1 := Money.Paid]) == {}
    ensures Money.PaidUsers(map[]) == {} && RefundedUsers(map[]) == {}
  {
  }

  const SLOW := map[9 := Gate.Loaded(true)]
  const SHUT_GATE := GateState(true, 0, {})

  /** The gate with the slow request 9 outstanding and two paid players. */
  function WithSlow(gate: GateState, closers: map<nat, Gate.Closer>, status: Gate.Status): Gate.System {
    Gate.System(gate, SLOW, closers, status, {1, 2}, {})
  }

  function Accepted(paid: set<Uuid>): Gate.System {
    Gate.System(GateState(false, 1, {}), SLOW[0 := Gate.InFlight], map[], Gate.Lobby, paid, {})
  }

  /** A first request reads the lobby and is slow; a second one is accepted. */
  lemma ASecondRequestIsAccepted() returns (moves: seq<Move>)
    ensures Reaches(moves, Joint(Accepted({}), Money.Start(true)))
  {
    TwoPaidAgree();
    var none := Money.Start(true);
    var g1 := Gate.System(NEW_GATE, SLOW, map[], Gate.Lobby, {}, {});
    var g2 := g1.(handlers := SLOW[0 := Gate.Loaded(true)]);
    moves := Plus([], START, OfGate(Gate.LoadArena(9)), Joint(g1, none));
    moves := Plus(moves, Joint(g1, none), OfGate(Gate.LoadArena(0)), Joint(g2, none));
    moves := Plus(moves, Joint(g2, none), OfGate(Gate.Begin(0)), Joint(Accepted({}), none));
  }

  /** It enters two players and is done. */
  lemma TwoPlayersEnter() returns (moves: seq<Move>)
    ensures Reaches(moves, Joint(WithSlow(NEW_GATE, map[], Gate.Lobby), TwoPaid(Money.Lobby, map[])))
  {
    TwoPaidAgree();
    moves := ASecondRequestIsAccepted();
    var none := Money.Start(true);
    var one, two := none.(passes := map[1 := Money.Paid]), TwoPaid(Money.Lobby, map[]);
    moves := Plus(moves, Joint(Accepted({}), none), Entry(0, 1), Joint(Accepted({1}), one));
    moves := Plus(moves, Joint(Accepted({1}), one), Entry(0, 2), Joint(Accepted({1, 2}), two));
    assert SLOW[0 := Gate.InFlight] - {0} == SLOW;
    moves := Plus(moves, Joint(Accepted({1, 2}), two), OfGate(Gate.Finish(0)),
                  Joint(WithSlow(NEW_GATE, map[], Gate.Lobby), two));
  }

  /** The gate closes, two passes are counted, and the arena goes live. */
  lemma TheArenaIsLive() returns (moves: seq<Move>)
    ensures Reaches(moves, Joint(WithSlow(SHUT_GATE, map[], Gate.Live), TwoPaid(Money.Live, map[])))
  {
    TwoPaidAgree();
    moves := TwoPlayersEnter();
    var lobby := TwoPaid(Money.Lobby, map[]);
    var g1 := WithSlow(NEW_GATE, map[], Gate.Lobby);
    var g2 := WithSlow(SHUT_GATE, map[0 := Gate.Closed], Gate.Lobby);
    var g3 := WithSlow(SHUT_GATE, map[0 := Gate.Counted(2)], Gate.Lobby);
    moves := Plus(moves, Joint(g1, lobby), OfGate(Gate.Close(0)), Joint(g2, lobby));
    moves := Plus(moves, Joint(g2, lobby), OfGate(Gate.CountPaid(0)), Joint(g3, lobby));
    moves := Plus(moves, Joint(g3, lobby), OfBoth(Gate.GoLive(0), Money.GoLive(Money.Works)),
                  Joint(WithSlow(SHUT_GATE, map[], Gate.Live), TwoPaid(Money.Live, map[])));
  }

  /** It is finished by somebody who never learns so. */
  lemma TheArenaIsOver() returns (moves: seq<Move>)
    ensures Reaches(moves, Joint(WithSlow(SHUT_GATE, map[], Gate.Finished), TwoPaid(Money.Finished, map[])))
  {
    TwoPaidAgree();
    moves := TheArenaIsLive();
    var live := WithSlow(SHUT_GATE, map[], Gate.Live);
    var wanted := TwoPaid(Money.Live, map[1 := Money.WantFinish]);
    moves := Plus(moves, Joint(live, TwoPaid(Money.Live, map[])), OfMoney(Money.StartFinish(1)), Joint(live, wanted));
    moves := Plus(moves, Joint(live, wanted), OfBoth(Gate.FinishArena, Money.TryFinish(1, Money.LostReply)),
                  Joint(WithSlow(SHUT_GATE, map[], Gate.Finished), TwoPaid(Money.Finished, map[])));
  }

  /**
   * The slow request then finds a new gate and an open escrow, and takes a third player's money for an arena that is
   * finished; nothing ever pays it out or gives it back.
   */
  lemma ASlowRequestPaysIntoAFinishedArena() returns (before: seq<Move>)
    ensures Legal(START, before) && Careful(START, before) && Run(START, before).money.status.Finished?
    ensures var late := [OfGate(Gate.Begin(9))] + [Entry(9, 3)];
            var end := Run(Released(Run(START, before)), late);
            && Legal(Released(Run(START, before)), late)
            && end.money.passes == MoneyReach.TWO_PAID[3 := Money.Paid]
            && !MoneyReach.CanResolve(end.money)
  {
    before := TheArenaIsOver();
    TwoPaidAgree();
    var r := Released(Run(START, before));
    var none: seq<Move> := [];
    OneMore(r, none, OfGate(Gate.Begin(9)));
    assert none + [OfGate(Gate.Begin(9))] == [OfGate(Gate.Begin(9))];
    EntryWritesOnePass(Run(r, [OfGate(Gate.Begin(9))]), 9, 3);
    OneMore(r, [OfGate(Gate.Begin(9))], Entry(9, 3));
    var b := Run(r, [OfGate(Gate.Begin(9))] + [Entry(9, 3)]).money;
    assert 3 in Money.PaidUsers(b.passes);
    MoneyReach.ReachableMoneyGetsOutExactlyWhen(b);
  }
}

/** Which arenas can still give the entries' money out, to winners or back to the players, and which never can. */
module MoneyReach {
  import opened Cs2Types
  import opened ArenaMoney

  /** The winners have the pool, or nobody is owed an entry. */
  predicate Resolved(b: Book) { b.escrow.EscrowSettled? || PaidUsers(b.passes) == {} }

  ghost predicate CanResolve(b: Book) { exists moves: seq<Move> :: Resolved(Run(b, moves)) }

  predicate SomeoneWon(b: Book) { exists j :: j in b.jobs && b.jobs[j].Won? }

  /** What an operator can read off: row, escrow, and whether the finisher's payout is still to come. */
  predicate HasAWay(b: Book) {
    || b.status.Lobby? || b.status.Cancelled?
    || (b.status.Live? && !b.escrow.EscrowCancelled?)
    || (b.status.Finished? && (b.escrow.EscrowSettled? || (b.escrow.EscrowOpen? && SomeoneWon(b))))
  }

  // ----- runs one after the other

  lemma {:induction false} RunInTwo(b: Book, first: seq<Move>, second: seq<Move>)
    ensures Run(b, first + second) == Run(Run(b, first), second)
  {
    if second == [] {
      assert first + second == first;
    } else {
      RunInTwo(b, first, second[..|second| - 1]);
      assert (first + second)[..|first + second| - 1] == first + second[..|second| - 1];
    }
  }

  lemma ResolvesNow(b: Book)
    requires Resolved(b)
    ensures CanResolve(b)
  {
    assert Run(b, []) == b;
  }

  lemma ResolvesAfter(b: Book, m: Move)
    requires CanResolve(Step(b, m))
    ensures CanResolve(b)
  {
    var moves: seq<Move> :| Resolved(Run(Step(b, m), moves));
    assert [m][..0] == [] && Run(b, [m]) == Step(b, m);
    RunInTwo(b, [m], moves);
  }

  // ----- ways out

  lemma PayingOut(b: Book, j: nat)
    requires HasJob(b, j, Won) && b.escrow.EscrowOpen?
    ensures CanResolve(b)
  {
    ResolvesNow(Step(b, PayOut(j, Works)));
    ResolvesAfter(b, PayOut(j, Works));
  }

  lemma FinishingPays(b: Book)
    requires (b.status.Lobby? || b.status.Live?) && b.escrow.EscrowOpen?
    ensures CanResolve(b)
  {
    var j := UnusedId(b.jobs.Keys);
    var live := Step(b, GoLive(Works));
    var wanted := Step(live, StartFinish(j));
    PayingOut(Step(wanted, TryFinish(j, Works)), j);
    ResolvesAfter(wanted, TryFinish(j, Works));
    ResolvesAfter(live, StartFinish(j));
    ResolvesAfter(b, GoLive(Works));
  }

  lemma {:induction false} RefundingAll(b: Book, j: nat)
    requires b.status.Cancelled? && b.escrow.EscrowCancelled?
    requires j in b.jobs && b.jobs[j].Refunding? && PaidUsers(b.passes) <= b.jobs[j].listed
    ensures CanResolve(b)
    decreases |PaidUsers(b.passes)|
  {
    if PaidUsers(b.passes) == {} {
      ResolvesNow(b);
    } else {
      var user :| user in PaidUsers(b.passes);
      var m := RefundOne(j, user, Works, Works);
      assert PaidUsers(Step(b, m).passes) == PaidUsers(b.passes) - {user};
      RefundingAll(Step(b, m), j);
      ResolvesAfter(b, m);
    }
  }

  lemma RefundsResolve(b: Book)
    requires b.status.Cancelled? && b.escrow.EscrowCancelled?
    ensures CanResolve(b)
  {
    var j := UnusedId(b.jobs.Keys);
    RefundingAll(Step(b, StartRefunds(j)), j);
    ResolvesAfter(b, StartRefunds(j));
  }

  lemma CancellingResolves(b: Book)
    requires b.status.Lobby? && b.escrow.EscrowCancelled?
    ensures CanResolve(b)
  {
    var j := UnusedId(b.jobs.Keys);
    var seen := Step(b, StartCancel(j));
    var chained := Step(seen, CancelChain(j, Works));
    RefundsResolve(Step(chained, CancelRow(j, Works)));
    ResolvesAfter(chained, CancelRow(j, Works));
    ResolvesAfter(seen, CancelChain(j, Works));
    ResolvesAfter(b, StartCancel(j));
  }

  // ----- no way out

  /** No way out: this stays so, and nothing more happens to the passes, whatever anybody does. */
  ghost predicate Stuck(b: Book) {
    && Inv(b) && !b.escrow.OffChain? && PaidUsers(b.passes) != {} && !HasAWay(b)
  }

  lemma StuckStays(b: Book, m: Move)
    requires Stuck(b)
    ensures Stuck(Step(b, m)) && Step(b, m).passes == b.passes
  {
    StepKeeps(b, m);
    assert forall j | j in b.jobs && b.jobs[j].Won? :: b.finisher.Some?;
  }

  lemma {:induction false} StrandedForGood(b: Book, moves: seq<Move>)
    requires Stuck(b)
    ensures Stuck(Run(b, moves)) && Run(b, moves).passes == b.passes
  {
    if moves != [] {
      StrandedForGood(b, moves[..|moves| - 1]);
      StuckStays(Run(b, moves[..|moves| - 1]), moves[|moves| - 1]);
    }
  }

  /**
   * In every reachable book of an on-chain arena with a paid entry: some continuation pays the winners or clears all
   * entries if and only if the arena is a lobby or cancelled, or live over an escrow that is not cancelled, or finished
   * with the escrow paid or with the finisher's payout still to come over an open one.
   */
  lemma {:induction false} MoneyGetsOutExactlyWhen(moves: seq<Move>)
    ensures var b := Run(Start(true), moves);
            PaidUsers(b.passes) != {} ==> (CanResolve(b) <==> HasAWay(b))
  {
    var b := Run(Start(true), moves);
    EveryRunKeeps(true, moves);
    StaysOnChain(moves);
    if PaidUsers(b.passes) != {} { ReachableMoneyGetsOutExactlyWhen(b); }
  }

  lemma {:induction false} ReachableMoneyGetsOutExactlyWhen(b: Book)
    requires Inv(b) && !b.escrow.OffChain? && PaidUsers(b.passes) != {}
    ensures CanResolve(b) <==> HasAWay(b)
  {
    if HasAWay(b) {
      AWayOut(b);
    } else {
      forall more: seq<Move> ensures !Resolved(Run(b, more)) { StrandedForGood(b, more); }
    }
  }

  lemma AWayOut(b: Book)
    requires Inv(b) && !b.escrow.OffChain? && PaidUsers(b.passes) != {} && HasAWay(b)
    ensures CanResolve(b)
  {
    if b.escrow.EscrowSettled? {
      ResolvesNow(b);
    } else if b.status.Cancelled? {
      RefundsResolve(b);
    } else if b.status.Finished? {
      var j :| j in b.jobs && b.jobs[j].Won?;
      PayingOut(b, j);
    } else if b.escrow.EscrowOpen? {
      FinishingPays(b);
    } else {
      CancellingResolves(b);
    }
  }

  // ----- both kinds of stranding are reached

  lemma RunOneMore(b: Book, moves: seq<Move>, m: Move)
    ensures Run(b, moves + [m]) == Step(Run(b, moves), m)
  {
    assert (moves + [m])[..|moves|] == moves;
  }

  const TWO_PAID := map[1 := Paid, 2 := Paid]

  lemma TwoEntries()
    ensures Run(Start(true), [Enter(1), Enter(2)]) == Book(Lobby, EscrowOpen, TWO_PAID, map[], None, [], {})
  {
    var none: seq<Move> := [];
    RunOneMore(Start(true), none, Enter(1));
    RunOneMore(Start(true), [Enter(1)], Enter(2));
    assert none + [Enter(1)] == [Enter(1)] && [Enter(1)] + [Enter(2)] == [Enter(1), Enter(2)];
  }

  /** A cancellation is through on chain but its row is not written, and the map then goes live with two paid entries. */
  lemma AHalfCancellationStrandsTheEntries()
    ensures var moves := [Enter(1), Enter(2)] + [StartCancel(0)] + [CancelChain(0, Works)] + [CancelRow(0, Fails)]
                         + [GoLive(Works)];
            var b := Run(Start(true), moves);
            b.status.Live? && b.escrow.EscrowCancelled? && b.passes == TWO_PAID && !CanResolve(b)
  {
    HalfCancelled();
    var dropped := [Enter(1), Enter(2)] + [StartCancel(0)] + [CancelChain(0, Works)] + [CancelRow(0, Fails)];
    RunOneMore(Start(true), dropped, GoLive(Works));
    TwoArePaid();
    MoneyGetsOutExactlyWhen(dropped + [GoLive(Works)]);
  }

  lemma HalfCancelled()
    ensures Run(Start(true), [Enter(1), Enter(2)] + [StartCancel(0)] + [CancelChain(0, Works)] + [CancelRow(0, Fails)])
         == Book(Lobby, EscrowCancelled, TWO_PAID, map[], None, [], {})
  {
    TwoEntries();
    var entered := [Enter(1), Enter(2)];
    var started := entered + [StartCancel(0)];
    var chained := started + [CancelChain(0, Works)];
    RunOneMore(Start(true), entered, StartCancel(0));
    RunOneMore(Start(true), started, CancelChain(0, Works));
    RunOneMore(Start(true), chained, CancelRow(0, Fails));
  }

  lemma TwoArePaid()
    ensures 1 in PaidUsers(TWO_PAID)
  {
  }

  /** The row was finished but the one who finished it never learned so: nobody pays, over an open escrow. */
  lemma ALostFinishStrandsTheEntries()
    ensures var moves := [Enter(1), Enter(2)] + [GoLive(Works)] + [StartFinish(1)] + [TryFinish(1, LostReply)];
            var b := Run(Start(true), moves);
            b.status.Finished? && b.escrow.EscrowOpen? && b.passes == TWO_PAID && !CanResolve(b)
  {
    TwoEntries();
    var entered := [Enter(1), Enter(2)];
    var live := entered + [GoLive(Works)];
    var wanted := live + [StartFinish(1)];
    RunOneMore(Start(true), entered, GoLive(Works));
    RunOneMore(Start(true), live, StartFinish(1));
    RunOneMore(Start(true), wanted, TryFinish(1, LostReply));
    TwoArePaid();
    MoneyGetsOutExactlyWhen(wanted + [TryFinish(1, LostReply)]);
  }

  /** The finisher stops before it pays, or its call to the chain fails: the same end. */
  lemma AFinisherThatStopsStrandsTheEntries(moves: seq<Move>, j: nat, stop: Move)
    requires var b := Run(Start(true), moves);
             HasJob(b, j, Won) && b.escrow.EscrowOpen? && PaidUsers(b.passes) != {}
    requires stop == Die(j) || stop == PayOut(j, Fails)
    ensures !CanResolve(Run(Start(true), moves + [stop]))
  {
    var b := Run(Start(true), moves);
    EveryRunKeeps(true, moves);
    RunOneMore(Start(true), moves, stop);
    assert !SomeoneWon(Step(b, stop));
    MoneyGetsOutExactlyWhen(moves + [stop]);
  }
}

/** Who gets the money of one arena: finish, payout, cancellation and refunds in any interleaving, any write failing. */
module ArenaMoney {
  import opened Cs2Types

  datatype Status = Lobby | Live | Finished | Cancelled
  datatype Escrow = OffChain | EscrowOpen | EscrowSettled | EscrowCancelled
  datatype Pass = Paid | Refunded

  /**
   * Running work: a finish or crash close, which has or has not made the transition itself; a cancellation, which
   * has seen the lobby or is through on chain; a refund run over the passes it listed.
   */
  datatype Job = WantFinish | Won | SawLobby | ChainDone | Refunding(listed: set<Uuid>)

  /** A call or write fails without effect, has its effect but reports failure, or succeeds. */
  datatype Luck = Fails | LostReply | Works

  datatype Book = Book(
    status: Status, escrow: Escrow, passes: map<Uuid, Pass>, jobs: map<nat, Job>,
    finisher: Option<nat>,          // who made the live -> finished transition
    payouts: seq<nat>,              // who called for the payout, in order
    chainRefunds: set<Uuid>)        // whose entry the chain has given back

  function Start(onchain: bool): Book {
    Book(Lobby, if onchain then EscrowOpen else OffChain, map[], map[], None, [], {})
  }

  datatype Move =
    | Enter(user: Uuid)
    | GoLive(luck: Luck)
    | StartFinish(j: nat)
    | TryFinish(j: nat, luck: Luck)
    | PayOut(j: nat, luck: Luck)
    | StartCancel(j: nat)
    | CancelChain(j: nat, luck: Luck)
    | CancelRow(j: nat, luck: Luck)
    | SkipLive(luck: Luck)
    | SkipLiveChain(luck: Luck)
    | StartRefunds(j: nat)
    | RefundOne(j: nat, user: Uuid, chain: Luck, mark: Luck)
    | Die(j: nat)

  predicate HasJob(b: Book, j: nat, job: Job) { j in b.jobs && b.jobs[j] == job }

  function EndJob(b: Book, j: nat): Book { b.(jobs := b.jobs - {j}) }

  function PaidUsers(passes: map<Uuid, Pass>): set<Uuid> { set u | u in passes && passes[u] == Paid }

  /** `setFinishedIfLive`, and only the caller whose own update hit the row goes on to pay. */
  function Finish(b: Book, j: nat, luck: Luck): Book {
    if luck.Fails? || !b.status.Live? then EndJob(b, j)
    else if luck.LostReply? then EndJob(b, j).(status := Finished)
    else b.(status := Finished, finisher := Some(j), jobs := b.jobs[j := Won])
  }

  function MarkRefunded(b: Book, user: Uuid, mark: Luck): Book {
    if mark.Fails? then b else b.(passes := b.passes[user := Refunded])
  }

  function Step(b: Book, m: Move): Book {
    match m
    case Enter(user) =>
      if b.status.Lobby? && (b.escrow.OffChain? || b.escrow.EscrowOpen?) && user !in b.passes
      then b.(passes := b.passes[user := Paid]) else b
    case GoLive(luck) =>
      if !luck.Fails? && (b.status.Lobby? || b.status.Live?) then b.(status := Live) else b
    case StartFinish(j) => if j in b.jobs then b else b.(jobs := b.jobs[j := WantFinish])
    case TryFinish(j, luck) => if HasJob(b, j, WantFinish) then Finish(b, j, luck) else b
    case PayOut(j, luck) =>
      if !HasJob(b, j, Won) then b
      else EndJob(b, j).(
             payouts := b.payouts + [j],
             escrow := if b.escrow.EscrowOpen? && !luck.Fails? then EscrowSettled else b.escrow)
    case StartCancel(j) =>
      if j !in b.jobs && b.status.Lobby? then b.(jobs := b.jobs[j := SawLobby]) else b
    case CancelChain(j, luck) =>
      if !HasJob(b, j, SawLobby) then b
      else if b.escrow.OffChain? then b.(jobs := b.jobs[j := ChainDone])
      else if b.escrow.EscrowSettled? || luck.Fails? then EndJob(b, j)
      else if luck.LostReply? then EndJob(b, j).(escrow := EscrowCancelled)
      else b.(jobs := b.jobs[j := ChainDone], escrow := EscrowCancelled)
    case CancelRow(j, luck) =>
      if !HasJob(b, j, ChainDone) then b
      else if b.status.Lobby? && !luck.Fails? then EndJob(b, j).(status := Cancelled)
      else EndJob(b, j)
    case SkipLive(luck) =>
      if b.status.Live? && PaidUsers(b.passes) == {} && !luck.Fails? then b.(status := Cancelled) else b
    case SkipLiveChain(luck) =>
      if b.status.Cancelled? && b.escrow.EscrowOpen? && !luck.Fails? then b.(escrow := EscrowCancelled) else b
    case StartRefunds(j) =>
      if j !in b.jobs && b.status.Cancelled? then b.(jobs := b.jobs[j := Refunding(PaidUsers(b.passes))]) else b
    case RefundOne(j, user, chain, mark) =>
      if j !in b.jobs || !b.jobs[j].Refunding? || user !in b.jobs[j].listed || user !in b.passes then b
      else if b.escrow.OffChain? then MarkRefunded(b, user, mark)
      else if !b.escrow.EscrowCancelled? || chain.Fails? then b
      else if chain.LostReply? then b.(chainRefunds := b.chainRefunds + {user})
      else MarkRefunded(b.(chainRefunds := b.chainRefunds + {user}), user, mark)
    case Die(j) => EndJob(b, j)
  }

  function Run(b: Book, moves: seq<Move>): Book {
    if moves == [] then b else Step(Run(b, moves[..|moves| - 1]), moves[|moves| - 1])
  }

  // ----- what every interleaving keeps

  ghost predicate SomeRefund(passes: map<Uuid, Pass>) { exists u :: u in passes && passes[u] == Refunded }

  ghost predicate JobsAreSane(b: Book) {
    forall j | j in b.jobs ::
      && (b.jobs[j].Won? ==> b.finisher == Some(j))
      && (b.jobs[j].ChainDone? ==> b.escrow.OffChain? || b.escrow.EscrowCancelled?)
      && (b.jobs[j].Refunding? ==> b.status.Cancelled?)
  }

  ghost predicate Inv(b: Book) {
    && JobsAreSane(b)
    && (b.finisher.Some? ==> b.status.Finished?)
    && (b.payouts != [] ==> b.finisher.Some? && b.payouts == [b.finisher.value] && !HasJob(b, b.finisher.value, Won))
    && (b.escrow.EscrowSettled? ==> b.payouts != [])
    && (SomeRefund(b.passes) || b.chainRefunds != {} ==> b.status.Cancelled?)
    && (b.chainRefunds != {} ==> b.escrow.EscrowCancelled?)
    && (!b.escrow.OffChain? ==> forall u | u in b.passes && b.passes[u] == Refunded :: u in b.chainRefunds)
    && (b.status.Cancelled? && PaidUsers(b.passes) != {} ==> b.escrow.OffChain? || b.escrow.EscrowCancelled?)
  }

  lemma EntryKeeps(b: Book, user: Uuid)
    requires Inv(b)
    ensures Inv(Step(b, Enter(user)))
  {
  }

  lemma RefundKeeps(b: Book, j: nat, user: Uuid, chain: Luck, mark: Luck)
    requires Inv(b)
    ensures Inv(Step(b, RefundOne(j, user, chain, mark)))
  {
    var next := Step(b, RefundOne(j, user, chain, mark));
    assert PaidUsers(next.passes) <= PaidUsers(b.passes);
  }

  lemma StepKeeps(b: Book, m: Move)
    requires Inv(b)
    ensures Inv(Step(b, m))
  {
    match m
    case Enter(user) => EntryKeeps(b, user);
    case RefundOne(j, user, chain, mark) => RefundKeeps(b, j, user, chain, mark);
    case _ =>
  }

  lemma {:induction false} EveryRunKeeps(onchain: bool, moves: seq<Move>)
    ensures Inv(Run(Start(onchain), moves))
  {
    if moves != [] {
      EveryRunKeeps(onchain, moves[..|moves| - 1]);
      StepKeeps(Run(Start(onchain), moves[..|moves| - 1]), moves[|moves| - 1]);
    }
  }

  /**
   * An arena never both pays its winners and gives an entry back, in its own books or on chain; it pays once, for the
   * one who finished it, and on chain marks as refunded only what the chain gave back.
   */
  lemma NeverPaysAndRefunds(onchain: bool, moves: seq<Move>)
    ensures var b := Run(Start(onchain), moves);
            && !((b.payouts != [] || b.escrow.EscrowSettled?) && (SomeRefund(b.passes) || b.chainRefunds != {}))
            && (onchain ==> forall u | u in b.passes && b.passes[u] == Refunded :: u in b.chainRefunds)
            && |b.payouts| <= 1
            && forall j | j in b.payouts :: b.finisher == Some(j) && b.status.Finished?
  {
    EveryRunKeeps(onchain, moves);
    if onchain { StaysOnChain(moves); }
  }

  lemma {:induction false} StaysOnChain(moves: seq<Move>)
    ensures !Run(Start(true), moves).escrow.OffChain?
  {
    if moves != [] { StaysOnChain(moves[..|moves| - 1]); }
  }

  /** A cancelled arena with paid entries can always be refunded: a refund run that meets no failure refunds them. */
  lemma CancelledEntriesCanBeRefunded(onchain: bool, moves: seq<Move>, j: nat, user: Uuid)
    requires var b := Run(Start(onchain), moves);
             b.status.Cancelled? && user in b.passes && b.passes[user] == Paid && j !in b.jobs
    ensures var b := Run(Start(onchain), moves);
            Step(Step(b, StartRefunds(j)), RefundOne(j, user, Works, Works)).passes == b.passes[user := Refunded]
  {
    EveryRunKeeps(onchain, moves);
    assert user in PaidUsers(Run(Start(onchain), moves).passes);
  }

  /** Finished and cancelled are final. */
  lemma {:induction false} EndsAreFinal(b: Book, moves: seq<Move>)
    requires Inv(b) && (b.status.Finished? || b.status.Cancelled?)
    ensures Run(b, moves).status == b.status && Inv(Run(b, moves))
  {
    if moves != [] {
      EndsAreFinal(b, moves[..|moves| - 1]);
      StepKeeps(Run(b, moves[..|moves| - 1]), moves[|moves| - 1]);
    }
  }
}

/** The payout protocol over failing and repeated calls (payout/service.ts). */
module PayoutRuns {
  import opened Cs2Types
  import opened PayoutService

  datatype RowStatus = Pending | Sent | Failed
  datatype Row = Row(userId: Uuid, amount: nat, status: RowStatus)

  /**
   * The escrow cell on chain: while open its balance and the pool that the program has recorded, once settled what it
   * transferred to the winners. The service sends the program no amounts.
   */
  datatype Chain = Open(escrow: nat, gross: nat) | Settled(paid: seq<nat>) | Cancelled

  /** The payout rows of one arena, and its escrow. */
  datatype World = World(rows: seq<Row>, chain: Chain)

  /** A settlement call fails without effect, takes effect but reports failure, or reports it in one of two ways. */
  datatype ChainLuck = Refused | LandedButLost | Submitted | Reconciled

  /**
   * What goes wrong during one call: how many row creations, status marks and deletions succeed, and whether the
   * write that fails was committed all the same.
   */
  datatype Luck = Luck(creates: nat, chain: ChainLuck, marks: nat, deletes: nat, committed: bool)

  datatype Outcome = NotTheWinners | Duplicates | OtherAmount | Crashed | AlreadySent | FailedOnChain | NoPlan | AllSent | SyncFailed

  function Users(plan: seq<Pay>): (us: seq<Uuid>)
    ensures |us| == |plan|
  {
    seq(|plan|, i requires 0 <= i < |plan| => plan[i].userId)
  }

  predicate Distinct(us: seq<Uuid>) { forall i, j | 0 <= i < j < |us| :: us[i] != us[j] }

  predicate NoDuplicates(rows: seq<Row>) { forall i, j | 0 <= i < j < |rows| :: rows[i].userId != rows[j].userId }

  predicate AllWinners(rows: seq<Row>, plan: seq<Pay>) { forall i | 0 <= i < |rows| :: rows[i].userId in Users(plan) }

  /** The first row of a user. */
  function Find(rows: seq<Row>, user: Uuid): (r: Option<Row>)
    ensures r.None? <==> forall i | 0 <= i < |rows| :: rows[i].userId != user
    ensures r.Some? ==> r.value in rows && r.value.userId == user
  {
    if rows == [] then None
    else if rows[0].userId == user then Some(rows[0])
    else Find(rows[1..], user)
  }

  // ----- the plan is written down

  datatype Stop = Done | Mismatch | Crash

  /** The rows after the winners of `plan` were looked up in `existing` and missing rows created. */
  function Persist(rows: seq<Row>, existing: seq<Row>, plan: seq<Pay>, creates: nat, committed: bool): (seq<Row>, Stop)
    decreases plan
  {
    if plan == [] then (rows, Done)
    else
      var row, found := Row(plan[0].userId, plan[0].amount, Pending), Find(existing, plan[0].userId);
      if found.Some? then
        if found.value.amount != plan[0].amount then (rows, Mismatch) else Persist(rows, existing, plan[1..], creates, committed)
      else if creates == 0 then (if committed then rows + [row] else rows, Crash)
      else Persist(rows + [row], existing, plan[1..], creates - 1, committed)
  }

  // ----- marking

  function Mark(rows: seq<Row>, user: Uuid, status: RowStatus): (marked: seq<Row>)
    ensures |marked| == |rows|
  {
    seq(|rows|, i requires 0 <= i < |rows| => if rows[i].userId == user then rows[i].(status := status) else rows[i])
  }

  /** Marks one user after the other until a mark fails. */
  function MarkAll(rows: seq<Row>, users: seq<Uuid>, status: RowStatus, marks: nat, committed: bool): (marked: seq<Row>)
    ensures |marked| == |rows|
    decreases users
  {
    if users == [] || (marks == 0 && !committed) then rows
    else if marks == 0 then Mark(rows, users[0], status)
    else MarkAll(Mark(rows, users[0], status), users[1..], status, marks - 1, committed)
  }

  function IsSent(rows: seq<Row>, user: Uuid): bool {
    var found := Find(rows, user);
    found.Some? && found.value.status == Sent
  }

  function Unsent(rows: seq<Row>, users: seq<Uuid>): seq<Uuid> {
    if users == [] then []
    else (if IsSent(rows, users[0]) then [] else [users[0]]) + Unsent(rows, users[1..])
  }

  // ----- the chain call

  /** What the program would pay to `winners` wallets; None if it refuses. */
  function ProgramPays(chain: Chain, winners: nat): Option<seq<nat>> {
    if !chain.Open? || winners == 0 then None
    else match OnchainSplit(chain.escrow, chain.gross, winners) case None => None case Some(split) => Some(split.1)
  }

  function ChainAfter(chain: Chain, luck: ChainLuck, winners: nat): Chain {
    match ProgramPays(chain, winners)
    case None => chain
    case Some(paid) => if luck.Refused? then chain else Settled(paid)
  }

  predicate ChainThrows(chain: Chain, luck: ChainLuck, winners: nat) {
    luck.Refused? || luck.LandedButLost? || (!chain.Settled? && ProgramPays(chain, winners).None?)
  }

  // ----- one call of settleArena, from the payout plan on

  /** The rows after the created ones were deleted, as far as that succeeds. */
  function DeleteCreated(rows: seq<Row>, from: nat, deletes: nat, committed: bool): seq<Row>
    requires from <= |rows|
  {
    var gone := deletes + if committed then 1 else 0;
    if from + gone <= |rows| then rows[..from] + rows[from + gone..] else rows[..from]
  }

  function Attempt(w: World, plan: seq<Pay>, luck: Luck): (World, Outcome) {
    if !AllWinners(w.rows, plan) then (w, NotTheWinners)
    else if !NoDuplicates(w.rows) then (w, Duplicates)
    else
      var (rows, stop) := Persist(w.rows, w.rows, plan, luck.creates, luck.committed);
      if stop == Mismatch then (w.(rows := rows), OtherAmount)
      else if stop == Crash then (w.(rows := rows), Crashed)
      else if Unsent(rows, Users(plan)) == [] then (w.(rows := rows), AlreadySent)
      else
        var chain := ChainAfter(w.chain, luck.chain, |plan|);
        if ChainThrows(w.chain, luck.chain, |plan|) then
          var unsent := Unsent(rows, Users(plan));
          (World(MarkAll(rows, unsent, Failed, luck.marks, luck.committed), chain),
           if luck.marks < |unsent| then Crashed else FailedOnChain)
        else if w.chain.Settled? && |rows| > |w.rows| then
          (World(DeleteCreated(rows, |w.rows|, luck.deletes, luck.committed), chain),
           if luck.deletes < |rows| - |w.rows| then Crashed else NoPlan)
        else
          (World(MarkAll(rows, Users(plan), Sent, luck.marks, luck.committed), chain),
           if luck.marks < |plan| then SyncFailed else AllSent)
  }

  /** Call after call, whatever goes wrong in each. */
  function Attempts(w: World, plan: seq<Pay>, lucks: seq<Luck>): World {
    if lucks == [] then w else Attempt(Attempts(w, plan, lucks[..|lucks| - 1]), plan, lucks[|lucks| - 1]).0
  }

  // ----- what every call keeps

  predicate IsPlanned(row: Row, plan: seq<Pay>) { Pay(row.userId, row.amount) in plan }

  ghost predicate OnPlan(rows: seq<Row>, plan: seq<Pay>) {
    NoDuplicates(rows) && forall i | 0 <= i < |rows| :: IsPlanned(rows[i], plan)
  }

  predicate HasRow(rows: seq<Row>, user: Uuid) { exists i :: 0 <= i < |rows| && rows[i].userId == user }

  /** Every winner of the plan has a row. */
  ghost predicate Complete(rows: seq<Row>, plan: seq<Pay>) { forall j | 0 <= j < |plan| :: HasRow(rows, plan[j].userId) }

  ghost predicate SomeSent(rows: seq<Row>) { exists i :: 0 <= i < |rows| && rows[i].status == Sent }

  /**
   * Rows are on plan, none is sent before the chain has settled, and then the whole plan had been written down. The
   * chain is as it was or has paid what the program makes of that.
   */
  ghost predicate Kept(w: World, plan: seq<Pay>, start: Chain) {
    && OnPlan(w.rows, plan) && start.Open?
    && (SomeSent(w.rows) ==> w.chain.Settled?)
    && (w.chain.Settled? ==> Complete(w.rows, plan) && ProgramPays(start, |plan|) == Some(w.chain.paid))
    && (!w.chain.Settled? ==> w.chain == start)
  }

  /** No row of `a` is gone, has another amount, or stopped being sent in `b`. */
  ghost predicate OnlyForward(a: seq<Row>, b: seq<Row>) {
    && |a| <= |b|
    && forall i | 0 <= i < |a| ::
         b[i].userId == a[i].userId && b[i].amount == a[i].amount && (a[i].status == Sent ==> b[i].status == Sent)
  }

  lemma PlannedAmount(plan: seq<Pay>, j: nat, row: Row)
    requires j < |plan| && Distinct(Users(plan)) && IsPlanned(row, plan) && row.userId == plan[j].userId
    ensures row.amount == plan[j].amount
  {
    var i :| 0 <= i < |plan| && plan[i] == Pay(row.userId, row.amount);
    assert Users(plan)[i] == Users(plan)[j];
  }

  /** The rows written so far: the existing ones and new pending ones of the first `k` winners. */
  ghost predicate Written(rows: seq<Row>, existing: seq<Row>, plan: seq<Pay>, k: nat)
    requires k <= |plan|
  {
    && |existing| <= |rows| && rows[..|existing|] == existing && OnPlan(rows, plan)
    && (forall i | |existing| <= i < |rows| :: rows[i].status == Pending)
    && (forall j | 0 <= j < k :: HasRow(rows, plan[j].userId))
    && (forall j | k <= j < |plan| :: HasRow(rows, plan[j].userId) ==> HasRow(existing, plan[j].userId))
  }

  lemma WriteOneMore(rows: seq<Row>, existing: seq<Row>, plan: seq<Pay>, k: nat)
    requires k < |plan| && Distinct(Users(plan)) && Written(rows, existing, plan, k)
    ensures HasRow(existing, plan[k].userId) ==> Written(rows, existing, plan, k + 1)
    ensures !HasRow(existing, plan[k].userId) ==>
      Written(rows + [Row(plan[k].userId, plan[k].amount, Pending)], existing, plan, k + 1)
  {
    if HasRow(existing, plan[k].userId) {
      var i :| 0 <= i < |existing| && existing[i].userId == plan[k].userId;
      assert rows[i] == existing[i];
    } else {
      var row := Row(plan[k].userId, plan[k].amount, Pending);
      var more := rows + [row];
      assert IsPlanned(row, plan) && more[|rows|] == row;
      forall j | 0 <= j < k ensures HasRow(more, plan[j].userId) {
        var i :| 0 <= i < |rows| && rows[i].userId == plan[j].userId;
        assert more[i] == rows[i];
      }
      forall j | k < j < |plan| && HasRow(more, plan[j].userId) ensures HasRow(existing, plan[j].userId) {
        var i :| 0 <= i < |more| && more[i].userId == plan[j].userId;
        assert Users(plan)[j] != Users(plan)[k];
      }
    }
  }

  /** Writing the plan down never disagrees with what is on plan, and finishes with a row for everyone. */
  lemma {:induction false} PersistWrites(
    rows: seq<Row>, existing: seq<Row>, plan: seq<Pay>, k: nat, creates: nat, committed: bool)
    requires k <= |plan| && Distinct(Users(plan)) && Written(rows, existing, plan, k) && OnPlan(existing, plan)
    ensures var (after, stop) := Persist(rows, existing, plan[k..], creates, committed);
            && stop != Mismatch && OnPlan(after, plan)
            && |existing| <= |after| && after[..|existing|] == existing
            && (forall i | |existing| <= i < |after| :: after[i].status == Pending)
            && (stop == Done ==> Complete(after, plan))
            && (stop == Done && Complete(existing, plan) && rows == existing ==> after == existing)
    decreases |plan| - k
  {
    if k < |plan| {
      WriteOneMore(rows, existing, plan, k);
      var row := Row(plan[k].userId, plan[k].amount, Pending);
      var found := Find(existing, plan[k].userId);
      if found.Some? {
        PlannedAmount(plan, k, found.value);
        PersistWrites(rows, existing, plan, k + 1, creates, committed);
      } else if creates > 0 {
        PersistWrites(rows + [row], existing, plan, k + 1, creates - 1, committed);
      }
    }
  }

  /** Marks change nothing but the status of rows of the marked users. */
  lemma {:induction false} MarksOnly(rows: seq<Row>, users: seq<Uuid>, status: RowStatus, marks: nat, committed: bool)
    ensures var marked := MarkAll(rows, users, status, marks, committed);
            forall i | 0 <= i < |rows| ::
              && marked[i].userId == rows[i].userId && marked[i].amount == rows[i].amount
              && (marked[i].status == rows[i].status || (marked[i].status == status && rows[i].userId in users))
    decreases users
  {
    if users != [] && marks > 0 {
      MarksOnly(Mark(rows, users[0], status), users[1..], status, marks - 1, committed);
    }
  }

  lemma {:induction false} EnoughMarksReachAll(rows: seq<Row>, users: seq<Uuid>, status: RowStatus, marks: nat, committed: bool)
    requires marks >= |users|
    ensures var marked := MarkAll(rows, users, status, marks, committed);
            forall i | 0 <= i < |rows| && (rows[i].userId in users || rows[i].status == status) :: marked[i].status == status
    decreases users
  {
    if users != [] {
      EnoughMarksReachAll(Mark(rows, users[0], status), users[1..], status, marks - 1, committed);
    }
  }

  lemma {:induction false} UnsentHaveNoSentRow(rows: seq<Row>, users: seq<Uuid>)
    requires NoDuplicates(rows)
    ensures forall i | 0 <= i < |rows| && rows[i].status == Sent :: rows[i].userId !in Unsent(rows, users)
    ensures Unsent(rows, users) == [] ==> forall i | 0 <= i < |rows| && rows[i].userId in users :: rows[i].status == Sent
  {
    if users != [] {
      UnsentHaveNoSentRow(rows, users[1..]);
      forall i | 0 <= i < |rows| && rows[i].userId == users[0] ensures IsSent(rows, users[0]) == (rows[i].status == Sent) {
        FindsTheOnlyRow(rows, i);
      }
    }
  }

  lemma {:induction false} FindsTheOnlyRow(rows: seq<Row>, i: nat)
    requires NoDuplicates(rows) && i < |rows|
    ensures Find(rows, rows[i].userId) == Some(rows[i])
  {
    if i > 0 {
      assert rows[0].userId != rows[i].userId;
      assert rows[1..][i - 1] == rows[i];
      FindsTheOnlyRow(rows[1..], i - 1);
    }
  }

  lemma MarkedKeeps(rows: seq<Row>, plan: seq<Pay>, users: seq<Uuid>, status: RowStatus, marks: nat, committed: bool)
    requires OnPlan(rows, plan)
    requires status == Failed ==> forall i | 0 <= i < |rows| && rows[i].status == Sent :: rows[i].userId !in users
    ensures var marked := MarkAll(rows, users, status, marks, committed);
            && OnPlan(marked, plan) && OnlyForward(rows, marked)
            && (status == Failed && SomeSent(marked) ==> SomeSent(rows))
            && (Complete(rows, plan) ==> Complete(marked, plan))
    requires status != Pending
  {
    MarksOnly(rows, users, status, marks, committed);
    var marked := MarkAll(rows, users, status, marks, committed);
    forall i | 0 <= i < |marked| ensures IsPlanned(marked[i], plan) { assert IsPlanned(rows[i], plan); }
    if Complete(rows, plan) {
      forall j | 0 <= j < |plan| ensures HasRow(marked, plan[j].userId) {
        assert HasRow(rows, plan[j].userId);
        var i :| 0 <= i < |rows| && rows[i].userId == plan[j].userId;
        assert marked[i].userId == plan[j].userId;
      }
    }
  }

  lemma OnPlanPasses(rows: seq<Row>, plan: seq<Pay>)
    requires OnPlan(rows, plan)
    ensures AllWinners(rows, plan) && NoDuplicates(rows)
  {
    forall i | 0 <= i < |rows| ensures rows[i].userId in Users(plan) {
      assert IsPlanned(rows[i], plan);
      var j :| 0 <= j < |plan| && plan[j] == Pay(rows[i].userId, rows[i].amount);
      assert Users(plan)[j] == rows[i].userId;
    }
  }

  /** What the plan writing leaves, as one fact. */
  lemma Persisted(existing: seq<Row>, plan: seq<Pay>, creates: nat, committed: bool)
    requires Distinct(Users(plan)) && OnPlan(existing, plan)
    ensures var (rows, stop) := Persist(existing, existing, plan, creates, committed);
            && stop != Mismatch && OnPlan(rows, plan) && OnlyForward(existing, rows)
            && (SomeSent(rows) ==> SomeSent(existing))
            && (stop == Done ==> Complete(rows, plan))
            && (Complete(existing, plan) && stop == Done ==> rows == existing)
            && (Complete(existing, plan) ==> stop == Done)
  {
    assert existing[..|existing|] == existing && plan[0..] == plan;
    assert forall j | 0 <= j < |plan| && HasRow(existing, plan[j].userId) :: HasRow(existing, plan[j].userId);
    PersistWrites(existing, existing, plan, 0, creates, committed);
    var (rows, stop) := Persist(existing, existing, plan, creates, committed);
    forall i | 0 <= i < |existing| ensures rows[i] == existing[i] { assert rows[..|existing|][i] == existing[i]; }
    if Complete(existing, plan) { NothingToWrite(existing, existing, plan, 0, creates, committed); }
  }

  lemma {:induction false} NothingToWrite(
    rows: seq<Row>, existing: seq<Row>, plan: seq<Pay>, k: nat, creates: nat, committed: bool)
    requires k <= |plan| && Distinct(Users(plan)) && OnPlan(existing, plan) && Complete(existing, plan)
    ensures Persist(rows, existing, plan[k..], creates, committed) == (rows, Done)
    decreases |plan| - k
  {
    if k < |plan| {
      assert HasRow(existing, plan[k].userId);
      PlannedAmount(plan, k, Find(existing, plan[k].userId).value);
      NothingToWrite(rows, existing, plan, k + 1, creates, committed);
    }
  }

  lemma CallFailed(rows: seq<Row>, chain: Chain, plan: seq<Pay>, luck: Luck, start: Chain)
    requires Kept(World(rows, chain), plan, start) && Complete(rows, plan)
    ensures var marked := MarkAll(rows, Unsent(rows, Users(plan)), Failed, luck.marks, luck.committed);
            Kept(World(marked, ChainAfter(chain, luck.chain, |plan|)), plan, start) && OnlyForward(rows, marked)
  {
    UnsentHaveNoSentRow(rows, Users(plan));
    MarkedKeeps(rows, plan, Unsent(rows, Users(plan)), Failed, luck.marks, luck.committed);
  }

  lemma CallWentThrough(rows: seq<Row>, chain: Chain, plan: seq<Pay>, luck: Luck, start: Chain)
    requires Kept(World(rows, chain), plan, start) && Complete(rows, plan) && !ChainThrows(chain, luck.chain, |plan|)
    ensures var marked := MarkAll(rows, Users(plan), Sent, luck.marks, luck.committed);
            Kept(World(marked, ChainAfter(chain, luck.chain, |plan|)), plan, start) && OnlyForward(rows, marked)
  {
    MarkedKeeps(rows, plan, Users(plan), Sent, luck.marks, luck.committed);
  }

  lemma ForwardTwice(a: seq<Row>, b: seq<Row>, c: seq<Row>)
    requires OnlyForward(a, b) && OnlyForward(b, c)
    ensures OnlyForward(a, c)
  {
  }

  lemma AttemptKeeps(w: World, plan: seq<Pay>, luck: Luck, start: Chain)
    requires Distinct(Users(plan)) && Kept(w, plan, start)
    ensures var next := Attempt(w, plan, luck).0;
            Kept(next, plan, start) && OnlyForward(w.rows, next.rows) && (w.chain.Settled? ==> next.chain == w.chain)
  {
    OnPlanPasses(w.rows, plan);
    Persisted(w.rows, plan, luck.creates, luck.committed);
    var (rows, stop) := Persist(w.rows, w.rows, plan, luck.creates, luck.committed);
    assert Kept(World(rows, w.chain), plan, start);
    if stop == Done {
      CallFailed(rows, w.chain, plan, luck, start);
      ForwardTwice(w.rows, rows, MarkAll(rows, Unsent(rows, Users(plan)), Failed, luck.marks, luck.committed));
      if !ChainThrows(w.chain, luck.chain, |plan|) {
        CallWentThrough(rows, w.chain, plan, luck, start);
        ForwardTwice(w.rows, rows, MarkAll(rows, Users(plan), Sent, luck.marks, luck.committed));
      }
    }
  }

  /** From no rows and an open escrow, over any number of calls that fail in any way. */
  lemma {:induction false} EveryRunKeepsThePlan(plan: seq<Pay>, escrow: nat, gross: nat, lucks: seq<Luck>)
    requires Distinct(Users(plan))
    ensures Kept(Attempts(World([], Open(escrow, gross)), plan, lucks), plan, Open(escrow, gross))
  {
    if lucks != [] {
      EveryRunKeepsThePlan(plan, escrow, gross, lucks[..|lucks| - 1]);
      AttemptKeeps(Attempts(World([], Open(escrow, gross)), plan, lucks[..|lucks| - 1]), plan, lucks[|lucks| - 1],
                   Open(escrow, gross));
    }
  }

  ghost predicate AllMarkedSent(rows: seq<Row>) { forall i | 0 <= i < |rows| :: rows[i].status == Sent }

  /** Once the chain has settled, a call without failures leaves the plan complete and every row of it sent. */
  lemma {:induction false} RetryCompletesThePlan(plan: seq<Pay>, escrow: nat, gross: nat, lucks: seq<Luck>, luck: Luck)
    requires Distinct(Users(plan))
    requires !luck.chain.Refused? && !luck.chain.LandedButLost? && luck.marks >= |plan|
    ensures var w := Attempts(World([], Open(escrow, gross)), plan, lucks);
            var end := Attempt(w, plan, luck).0;
            w.chain.Settled? ==> Complete(end.rows, plan) && OnPlan(end.rows, plan) && AllMarkedSent(end.rows)
  {
    EveryRunKeepsThePlan(plan, escrow, gross, lucks);
    var w := Attempts(World([], Open(escrow, gross)), plan, lucks);
    if w.chain.Settled? { SettledAndLucky(w, plan, luck); }
  }

  lemma SettledAndLucky(w: World, plan: seq<Pay>, luck: Luck)
    requires Distinct(Users(plan)) && OnPlan(w.rows, plan) && Complete(w.rows, plan) && w.chain.Settled?
    requires !luck.chain.Refused? && !luck.chain.LandedButLost? && luck.marks >= |plan|
    ensures var end := Attempt(w, plan, luck).0;
            Complete(end.rows, plan) && OnPlan(end.rows, plan) && AllMarkedSent(end.rows)
  {
    CompletePlanIsMarked(w, plan, luck);
    OnPlanPasses(w.rows, plan);
    UnsentHaveNoSentRow(w.rows, Users(plan));
    MarkedKeeps(w.rows, plan, Users(plan), Sent, luck.marks, luck.committed);
    EnoughMarksReachAll(w.rows, Users(plan), Sent, luck.marks, luck.committed);
  }

  lemma CompletePlanIsMarked(w: World, plan: seq<Pay>, luck: Luck)
    requires Distinct(Users(plan)) && OnPlan(w.rows, plan) && Complete(w.rows, plan) && w.chain.Settled?
    requires !luck.chain.Refused? && !luck.chain.LandedButLost?
    ensures Attempt(w, plan, luck).0.rows
         == if Unsent(w.rows, Users(plan)) == [] then w.rows
            else MarkAll(w.rows, Users(plan), Sent, luck.marks, luck.committed)
  {
    OnPlanPasses(w.rows, plan);
    Persisted(w.rows, plan, luck.creates, luck.committed);
  }

  // ----- the service

  datatype Arena = Arena(onchain: bool, prizePool: nat)

  /** Why a call stops before it has a plan. */
  datatype Skip = NoWinners | NotOnChain | NoWallets | PoolOutOfRange

  datatype Result = Skipped(why: Skip) | Ran(outcome: Outcome)

  const MAX_SAFE_INTEGER := 9_007_199_254_740_991

  /** The winners with a wallet the chain can pay. */
  function Payable(winners: seq<Uuid>, wallets: set<Uuid>): seq<Uuid> {
    if winners == [] then []
    else
      var last := winners[|winners| - 1];
      Payable(winners[..|winners| - 1], wallets) + if last in wallets then [last] else []
  }

  function SkipReason(arena: Option<Arena>, winners: seq<Uuid>, wallets: set<Uuid>): Option<Skip> {
    if winners == [] then Some(NoWinners)
    else if arena.None? || !arena.value.onchain then Some(NotOnChain)
    else if Payable(winners, wallets) == [] then Some(NoWallets)
    else if arena.value.prizePool > MAX_SAFE_INTEGER then Some(PoolOutOfRange)
    else None
  }

  lemma {:induction false} PayableStayDistinct(winners: seq<Uuid>, wallets: set<Uuid>)
    requires Distinct(winners)
    ensures Distinct(Payable(winners, wallets)) && forall u :: u in Payable(winners, wallets) <==> u in winners && u in wallets
  {
    if winners != [] {
      assert winners == winners[..|winners| - 1] + [winners[|winners| - 1]];
      PayableStayDistinct(winners[..|winners| - 1], wallets);
    }
  }

  /** A payout is left out without winners, without an escrow, without a wallet to pay, or for a pool beyond exact numbers. */
  lemma SkipsMean(arena: Option<Arena>, winners: seq<Uuid>, wallets: set<Uuid>)
    requires Distinct(winners)
    ensures var why := SkipReason(arena, winners, wallets);
            && (why == Some(NoWinners) <==> winners == [])
            && (why == Some(NotOnChain) <==> winners != [] && (arena == None || !arena.value.onchain))
            && (why == Some(NoWallets) <==>
                  winners != [] && arena != None && arena.value.onchain && forall u | u in winners :: u !in wallets)
            && (why == Some(PoolOutOfRange) <==>
                  && arena != None && arena.value.onchain && (exists u | u in winners :: u in wallets)
                  && arena.value.prizePool >= 0x20_0000_0000_0000)
  {
    PayableStayDistinct(winners, wallets);
    if Payable(winners, wallets) != [] { assert Payable(winners, wallets)[0] in Payable(winners, wallets); }
  }

  /**
   * Over every run for the winners with wallets: the plan is kept, fee and plan make up the pool, and a settled chain has
   * paid each winner what the plan says if and only if escrow less the program's fee was the pool less ours; where the
   * program had recorded our pool, if and only if the escrow held it.
   */
  lemma {:induction false} SettledRunsPayThePlanExactlyWhen(
    winners: seq<Uuid>, wallets: set<Uuid>, pool: nat, escrow: nat, gross: nat, lucks: seq<Luck>)
    requires Distinct(winners) && Payable(winners, wallets) != []
    ensures var plan := PlanOf(Payable(winners, wallets), pool, PlatformFee(pool));
            var end := Attempts(World([], Open(escrow, gross)), plan, lucks);
            && Kept(end, plan, Open(escrow, gross)) && PlatformFee(pool) + Total(plan) == pool
            && (end.chain.Settled? ==>
                  && (end.chain.paid == Amounts(plan) <==> escrow - PlatformFee(gross) == pool - PlatformFee(pool))
                  && (gross == pool ==> (end.chain.paid == Amounts(plan) <==> escrow == pool)))
  {
    PayableStayDistinct(winners, wallets);
    var resolved := Payable(winners, wallets);
    var plan := PlanOf(resolved, pool, PlatformFee(pool));
    assert Users(plan) == resolved;
    EveryRunKeepsThePlan(plan, escrow, gross, lucks);
    NothingIsLostInTheSplit(resolved, pool, PlatformFee(pool));
    PlanIsPaidExactlyWhen(resolved, pool, escrow, gross);
  }

  class PayoutDesk {
    var rows: seq<Row>
    var chain: Chain

    function Now(): World
      reads this
    {
      World(rows, chain)
    }

    method SettleArena(arena: Option<Arena>, winners: seq<Uuid>, wallets: set<Uuid>, luck: Luck) returns (result: Result)
      modifies this
      ensures SkipReason(arena, winners, wallets).Some? ==>
        Now() == old(Now()) && result == Skipped(SkipReason(arena, winners, wallets).value)
      ensures SkipReason(arena, winners, wallets).None? ==>
        var pool := arena.value.prizePool;
        var plan := PlanOf(Payable(winners, wallets), pool, PlatformFee(pool));
        result.Ran? && (Now(), result.outcome) == Attempt(old(Now()), plan, luck)
    {
      if winners == [] { return Skipped(NoWinners); }
      if arena.None? || !arena.value.onchain { return Skipped(NotOnChain); }
      var resolved := [];
      for i := 0 to |winners|
        invariant resolved == Payable(winners[..i], wallets)
      {
        assert winners[..i + 1][..i] == winners[..i];
        if winners[i] in wallets { resolved := resolved + [winners[i]]; }
      }
      assert winners[..|winners|] == winners;
      if resolved == [] { return Skipped(NoWallets); }
      var pool := arena.value.prizePool;
      if pool > MAX_SAFE_INTEGER { return Skipped(PoolOutOfRange); }
      var outcome := PayOut(PlanOf(resolved, pool, PlatformFee(pool)), luck);
      result := Ran(outcome);
    }

    method PayOut(plan: seq<Pay>, luck: Luck) returns (outcome: Outcome)
      modifies this
      ensures (Now(), outcome) == Attempt(old(Now()), plan, luck)
    {
      var existing := rows;
      if !AllWinners(existing, plan) { return NotTheWinners; }
      if !NoDuplicates(existing) { return Duplicates; }
      var stop := WritePlan(plan, luck);
      if stop == Mismatch { return OtherAmount; }
      if stop == Crash { return Crashed; }
      var unsent := Unsent(rows, Users(plan));
      if unsent == [] { return AlreadySent; }
      var before := chain;
      chain := ChainAfter(before, luck.chain, |plan|);
      if ChainThrows(before, luck.chain, |plan|) {
        MarkEach(unsent, Failed, luck);
        return if luck.marks < |unsent| then Crashed else FailedOnChain;
      }
      if before.Settled? && |rows| > |existing| {
        var created := |rows| - |existing|;
        DeleteEach(|existing|, luck);
        return if luck.deletes < created then Crashed else NoPlan;
      }
      MarkEach(Users(plan), Sent, luck);
      outcome := if luck.marks < |plan| then SyncFailed else AllSent;
    }

    method WritePlan(plan: seq<Pay>, luck: Luck) returns (stop: Stop)
      modifies this`rows
      ensures (rows, stop) == Persist(old(rows), old(rows), plan, luck.creates, luck.committed)
    {
      var existing, creates := rows, luck.creates;
      for i := 0 to |plan|
        invariant Persist(rows, existing, plan[i..], creates, luck.committed)
               == Persist(existing, existing, plan, luck.creates, luck.committed)
      {
        assert plan[i..][1..] == plan[i + 1..];
        var found := Find(existing, plan[i].userId);
        if found.Some? && found.value.amount != plan[i].amount { return Mismatch; }
        if found.None? {
          var row := Row(plan[i].userId, plan[i].amount, Pending);
          if creates == 0 {
            if luck.committed { rows := rows + [row]; }
            return Crash;
          }
          rows, creates := rows + [row], creates - 1;
        }
      }
      stop := Done;
    }

    method MarkEach(users: seq<Uuid>, status: RowStatus, luck: Luck)
      modifies this`rows
      ensures rows == MarkAll(old(rows), users, status, luck.marks, luck.committed)
    {
      var marks := luck.marks;
      for i := 0 to |users|
        invariant MarkAll(rows, users[i..], status, marks, luck.committed)
               == MarkAll(old(rows), users, status, luck.marks, luck.committed)
      {
        assert users[i..][1..] == users[i + 1..];
        if marks == 0 {
          if luck.committed { rows := Mark(rows, users[i], status); }
          return;
        }
        rows, marks := Mark(rows, users[i], status), marks - 1;
      }
    }

    /** Deletes the created rows one by one, the first of them first. */
    method DeleteEach(from: nat, luck: Luck)
      requires from < |rows|
      modifies this`rows
      ensures rows == DeleteCreated(old(rows), from, luck.deletes, luck.committed)
    {
      var all := rows;
      var created := |rows| - from;
      for i := 0 to created
        invariant i <= luck.deletes && rows == all[..from] + all[from + i..]
      {
        if i == luck.deletes {
          if luck.committed { rows := rows[..from] + rows[from + 1..]; }
          return;
        }
        rows := rows[..from] + rows[from + 1..];
      }
    }
  }
}

/** When a call reports rows as sent, and what that means for an escrow that somebody else settled (payout/service.ts). */
module PayoutElsewhere {
  import opened Cs2Types
  import opened PayoutService
  import opened PayoutRuns

  /** Winners of the plan without a row. */
  function Missing(rows: seq<Row>, plan: seq<Pay>): nat {
    if plan == [] then 0 else (if Find(rows, plan[0].userId).None? then 1 else 0) + Missing(rows, plan[1..])
  }

  function Bonus(committed: bool): nat { if committed then 1 else 0 }

  /** The call gets through to the chain and its first mark is written. */
  predicate GetsThrough(chain: Chain, luck: Luck, winners: nat) {
    !ChainThrows(chain, luck.chain, winners) && (luck.marks > 0 || luck.committed)
  }

  // ----- writing the plan

  lemma {:induction false} NothingMissing(rows: seq<Row>, plan: seq<Pay>)
    ensures Missing(rows, plan) == 0 <==> Complete(rows, plan)
  {
    if plan != [] {
      NothingMissing(rows, plan[1..]);
      assert Find(rows, plan[0].userId).None? <==> !HasRow(rows, plan[0].userId);
      if Complete(rows, plan) {
        forall j | 0 <= j < |plan| - 1 ensures HasRow(rows, plan[1..][j].userId) { assert plan[1..][j] == plan[j + 1]; }
      } else {
        var j :| 0 <= j < |plan| && !HasRow(rows, plan[j].userId);
        if j > 0 { assert plan[1..][j - 1] == plan[j]; }
      }
    }
  }

  /** The plan is written to its end exactly if the creations suffice, and complete also if the last one got in late. */
  lemma {:induction false} WritesExactly(
    rows: seq<Row>, existing: seq<Row>, plan: seq<Pay>, k: nat, creates: nat, committed: bool)
    requires k <= |plan| && Distinct(Users(plan)) && Written(rows, existing, plan, k) && OnPlan(existing, plan)
    ensures var (after, stop) := Persist(rows, existing, plan[k..], creates, committed);
            && (stop == Done <==> Missing(existing, plan[k..]) <= creates)
            && (Complete(after, plan) <==> Missing(existing, plan[k..]) <= creates + Bonus(committed))
    decreases |plan| - k
  {
    if k < |plan| {
      WriteOneMore(rows, existing, plan, k);
      assert plan[k..][0] == plan[k] && plan[k..][1..] == plan[k + 1..];
      var row := Row(plan[k].userId, plan[k].amount, Pending);
      var found := Find(existing, plan[k].userId);
      if found.Some? {
        PlannedAmount(plan, k, found.value);
        WritesExactly(rows, existing, plan, k + 1, creates, committed);
      } else if creates > 0 {
        WritesExactly(rows + [row], existing, plan, k + 1, creates - 1, committed);
      } else {
        NothingMissing(existing, plan[k + 1..]);
        LastRowMissing(rows, existing, plan, k);
      }
    } else {
      assert plan[k..] == [];
    }
  }

  /** Where the creations are used up at a missing row. */
  lemma LastRowMissing(rows: seq<Row>, existing: seq<Row>, plan: seq<Pay>, k: nat)
    requires k < |plan| && Distinct(Users(plan)) && Written(rows, existing, plan, k)
    requires !HasRow(existing, plan[k].userId)
    requires Written(rows + [Row(plan[k].userId, plan[k].amount, Pending)], existing, plan, k + 1)
    ensures !Complete(rows, plan)
    ensures Complete(rows + [Row(plan[k].userId, plan[k].amount, Pending)], plan) <==> Complete(existing, plan[k + 1..])
  {
    assert !HasRow(rows, plan[k].userId);
    var more := rows + [Row(plan[k].userId, plan[k].amount, Pending)];
    if Complete(existing, plan[k + 1..]) {
      forall j | 0 <= j < |plan| ensures HasRow(more, plan[j].userId) {
        if j > k {
          assert plan[k + 1..][j - k - 1] == plan[j];
          RowsOfExisting(more, existing, plan[j].userId);
        }
      }
    }
    if Complete(more, plan) {
      var rest := plan[k + 1..];
      forall i | 0 <= i < |rest| ensures HasRow(existing, rest[i].userId) {
        assert HasRow(more, plan[k + 1 + i].userId);
      }
    }
  }

  lemma RowsOfExisting(more: seq<Row>, existing: seq<Row>, user: Uuid)
    requires |existing| <= |more| && more[..|existing|] == existing && HasRow(existing, user)
    ensures HasRow(more, user)
  {
    var i :| 0 <= i < |existing| && existing[i].userId == user;
    assert more[i] == existing[i];
  }

  /** One call's plan writing, as one fact. */
  lemma PlanWritten(existing: seq<Row>, plan: seq<Pay>, creates: nat, committed: bool)
    requires Distinct(Users(plan)) && OnPlan(existing, plan)
    ensures var (rows, stop) := Persist(existing, existing, plan, creates, committed);
            && stop != Mismatch
            && (stop == Done <==> Missing(existing, plan) <= creates)
            && (Complete(rows, plan) <==> Missing(existing, plan) <= creates + Bonus(committed))
  {
    Persisted(existing, plan, creates, committed);
    assert existing[..|existing|] == existing && plan[0..] == plan;
    WritesExactly(existing, existing, plan, 0, creates, committed);
  }

  // ----- one call

  lemma FirstMarkIsSent(rows: seq<Row>, plan: seq<Pay>, marks: nat, committed: bool)
    requires plan != [] && OnPlan(rows, plan) && Complete(rows, plan) && !SomeSent(rows)
    ensures SomeSent(MarkAll(rows, Users(plan), Sent, marks, committed)) <==> marks > 0 || committed
  {
    if marks > 0 || committed {
      assert HasRow(rows, plan[0].userId);
      var i :| 0 <= i < |rows| && rows[i].userId == plan[0].userId;
      assert Users(plan)[0] == plan[0].userId;
      if marks > 0 {
        var first := Mark(rows, Users(plan)[0], Sent);
        assert first[i].status == Sent;
        MarksOnly(first, Users(plan)[1..], Sent, marks - 1, committed);
        assert MarkAll(first, Users(plan)[1..], Sent, marks - 1, committed)[i].status == Sent;
      } else {
        assert Mark(rows, Users(plan)[0], Sent)[i].status == Sent;
      }
    }
  }

  lemma NobodySentYet(rows: seq<Row>, plan: seq<Pay>)
    requires plan != [] && !SomeSent(rows)
    ensures Unsent(rows, Users(plan)) != []
  {
    assert !IsSent(rows, Users(plan)[0]) by {
      var found := Find(rows, Users(plan)[0]);
      if found.Some? {
        var i :| 0 <= i < |rows| && rows[i] == found.value;
        assert rows[i].status != Sent;
      }
    }
  }

  /**
   * A call turns a row sent, none having been, if and only if it gets through and either finds the whole plan written or
   * writes the rest of it down itself over an escrow still open.
   */
  lemma {:induction false} CallMarksExactlyWhen(w: World, plan: seq<Pay>, luck: Luck)
    requires Distinct(Users(plan)) && plan != [] && OnPlan(w.rows, plan) && !SomeSent(w.rows)
    ensures SomeSent(Attempt(w, plan, luck).0.rows)
            <==> && GetsThrough(w.chain, luck, |plan|)
                 && (Complete(w.rows, plan) || (w.chain.Open? && Missing(w.rows, plan) <= luck.creates))
  {
    OnPlanPasses(w.rows, plan);
    Persisted(w.rows, plan, luck.creates, luck.committed);
    PlanWritten(w.rows, plan, luck.creates, luck.committed);
    NothingMissing(w.rows, plan);
    var (rows, stop) := Persist(w.rows, w.rows, plan, luck.creates, luck.committed);
    if stop == Done {
      NobodySentYet(rows, plan);
      var next := Attempt(w, plan, luck).0;
      if ChainThrows(w.chain, luck.chain, |plan|) {
        UnsentHaveNoSentRow(rows, Users(plan));
        MarkedKeeps(rows, plan, Unsent(rows, Users(plan)), Failed, luck.marks, luck.committed);
        assert !SomeSent(next.rows);
      } else if w.chain.Settled? && |rows| > |w.rows| {
        NoneSentAfterDeleting(rows, |w.rows|, luck.deletes, luck.committed);
        assert !SomeSent(next.rows);
      } else {
        FirstMarkIsSent(rows, plan, luck.marks, luck.committed);
        if |rows| == |w.rows| { SameRowsComplete(w.rows, rows, plan); }
      }
    }
  }

  // ----- an escrow that somebody else settled

  lemma SameRowsComplete(a: seq<Row>, b: seq<Row>, plan: seq<Pay>)
    requires OnlyForward(a, b) && |a| == |b| && Complete(b, plan)
    ensures Complete(a, plan)
  {
    forall j | 0 <= j < |plan| ensures HasRow(a, plan[j].userId) {
      assert HasRow(b, plan[j].userId);
      var i :| 0 <= i < |b| && b[i].userId == plan[j].userId;
      assert a[i].userId == plan[j].userId;
    }
  }

  lemma NoneSentAfterDeleting(rows: seq<Row>, from: nat, deletes: nat, committed: bool)
    requires from <= |rows| && !SomeSent(rows)
    ensures !SomeSent(DeleteCreated(rows, from, deletes, committed))
  {
    var left := DeleteCreated(rows, from, deletes, committed);
    var gone := deletes + Bonus(committed);
    forall i | 0 <= i < |left| ensures left[i].status != Sent {
      assert left[i] == rows[if i < from then i else i + gone];
    }
  }

  /** Deleting takes the rows from `from` on, as many as succeed: the plan stays complete exactly if that is none. */
  lemma DeletingExactly(rows: seq<Row>, plan: seq<Pay>, from: nat, deletes: nat, committed: bool)
    requires from < |rows| && OnPlan(rows, plan) && Complete(rows, plan)
    ensures var left := DeleteCreated(rows, from, deletes, committed);
            OnPlan(left, plan) && (Complete(left, plan) <==> deletes == 0 && !committed)
  {
    var left, gone := DeleteCreated(rows, from, deletes, committed), deletes + Bonus(committed);
    forall i | 0 <= i < |left| ensures left[i] == rows[if i < from then i else i + gone] { }
    forall i | 0 <= i < |left| ensures IsPlanned(left[i], plan) {
      assert IsPlanned(rows[if i < from then i else i + gone], plan);
    }
    if gone == 0 {
      assert left == rows;
    } else {
      assert IsPlanned(rows[from], plan);
      var j :| 0 <= j < |plan| && plan[j] == Pay(rows[from].userId, rows[from].amount);
      forall i | 0 <= i < |left| ensures left[i].userId != plan[j].userId {
        assert left[i] == rows[if i < from then i else i + gone];
      }
      assert !HasRow(left, plan[j].userId);
    }
  }

  /**
   * A call that meets a settled escrow and an incomplete plan leaves the plan complete if and only if it could write all
   * of it and then stopped before any deletion, or its last creation got in although it was reported as failed.
   */
  lemma {:induction false} CallLeavesThePlanExactlyWhen(w: World, plan: seq<Pay>, luck: Luck)
    requires Distinct(Users(plan)) && plan != [] && OnPlan(w.rows, plan) && !SomeSent(w.rows)
    requires w.chain.Settled? && !Complete(w.rows, plan)
    ensures var next := Attempt(w, plan, luck).0;
            && OnPlan(next.rows, plan) && next.chain == w.chain
            && (Complete(next.rows, plan)
                <==> || (Missing(w.rows, plan) <= luck.creates
                         && (ChainThrows(w.chain, luck.chain, |plan|) || (luck.deletes == 0 && !luck.committed)))
                     || (Missing(w.rows, plan) == luck.creates + 1 && luck.committed))
  {
    OnPlanPasses(w.rows, plan);
    Persisted(w.rows, plan, luck.creates, luck.committed);
    PlanWritten(w.rows, plan, luck.creates, luck.committed);
    var (rows, stop) := Persist(w.rows, w.rows, plan, luck.creates, luck.committed);
    if stop == Done {
      NobodySentYet(rows, plan);
      if |rows| == |w.rows| { SameRowsComplete(w.rows, rows, plan); }
      UnsentHaveNoSentRow(rows, Users(plan));
      MarkedKeeps(rows, plan, Unsent(rows, Users(plan)), Failed, luck.marks, luck.committed);
      DeletingExactly(rows, plan, |w.rows|, luck.deletes, luck.committed);
    }
  }

  /** What every run over an escrow settled elsewhere keeps: no row is sent but of a complete plan. */
  ghost predicate Elsewhere(w: World, plan: seq<Pay>, paid: seq<nat>) {
    && OnPlan(w.rows, plan) && w.chain == Settled(paid)
    && (SomeSent(w.rows) ==> Complete(w.rows, plan))
  }

  lemma ElsewhereKeeps(w: World, plan: seq<Pay>, luck: Luck, paid: seq<nat>)
    requires Distinct(Users(plan)) && plan != [] && Elsewhere(w, plan, paid)
    ensures var next := Attempt(w, plan, luck).0;
            && Elsewhere(next, plan, paid)
            && (Complete(w.rows, plan) ==> Complete(next.rows, plan) && (SomeSent(w.rows) ==> SomeSent(next.rows)))
  {
    if Complete(w.rows, plan) {
      CompleteElsewhere(w, plan, luck);
    } else {
      CallLeavesThePlanExactlyWhen(w, plan, luck);
      CallMarksExactlyWhen(w, plan, luck);
    }
  }

  lemma CompleteElsewhere(w: World, plan: seq<Pay>, luck: Luck)
    requires Distinct(Users(plan)) && OnPlan(w.rows, plan) && Complete(w.rows, plan) && w.chain.Settled?
    ensures var next := Attempt(w, plan, luck).0;
            && OnPlan(next.rows, plan) && Complete(next.rows, plan) && next.chain == w.chain
            && (SomeSent(w.rows) ==> SomeSent(next.rows))
  {
    MarksWhenComplete(w, plan, luck);
    UnsentHaveNoSentRow(w.rows, Users(plan));
    MarkedKeeps(w.rows, plan, Unsent(w.rows, Users(plan)), Failed, luck.marks, luck.committed);
    MarkedKeeps(w.rows, plan, Users(plan), Sent, luck.marks, luck.committed);
    if SomeSent(w.rows) { SentStays(w.rows, Attempt(w, plan, luck).0.rows); }
  }

  lemma SentStays(a: seq<Row>, b: seq<Row>)
    requires OnlyForward(a, b) && SomeSent(a)
    ensures SomeSent(b)
  {
    var i :| 0 <= i < |a| && a[i].status == Sent;
    assert b[i].status == Sent;
  }

  lemma MarksWhenComplete(w: World, plan: seq<Pay>, luck: Luck)
    requires Distinct(Users(plan)) && OnPlan(w.rows, plan) && Complete(w.rows, plan) && w.chain.Settled?
    ensures var next, unsent := Attempt(w, plan, luck).0, Unsent(w.rows, Users(plan));
            && next.chain == w.chain
            && next.rows == if unsent == [] then w.rows
                            else if ChainThrows(w.chain, luck.chain, |plan|)
                            then MarkAll(w.rows, unsent, Failed, luck.marks, luck.committed)
                            else MarkAll(w.rows, Users(plan), Sent, luck.marks, luck.committed)
  {
    OnPlanPasses(w.rows, plan);
    Persisted(w.rows, plan, luck.creates, luck.committed);
  }

  /** Before call `k` the whole plan stands written, left by an earlier call, and call `k` gets through. */
  ghost predicate FindsThePlan(plan: seq<Pay>, paid: seq<nat>, lucks: seq<Luck>, k: nat) {
    && k < |lucks|
    && Complete(Attempts(World([], Settled(paid)), plan, lucks[..k]).rows, plan)
    && GetsThrough(Settled(paid), lucks[k], |plan|)
  }

  /** Some row is ever reported as sent if and only if some call leaves the complete plan behind and a later one gets through. */
  lemma {:induction false} InventedOnceComplete(plan: seq<Pay>, paid: seq<nat>, lucks: seq<Luck>)
    requires Distinct(Users(plan)) && plan != []
    ensures Elsewhere(Attempts(World([], Settled(paid)), plan, lucks), plan, paid)
    ensures SomeSent(Attempts(World([], Settled(paid)), plan, lucks).rows)
            <==> exists k: nat :: FindsThePlan(plan, paid, lucks, k)
  {
    if lucks != [] {
      var n := |lucks| - 1;
      InventedOnceComplete(plan, paid, lucks[..n]);
      var w := Attempts(World([], Settled(paid)), plan, lucks[..n]);
      ElsewhereKeeps(w, plan, lucks[n], paid);
      forall k: nat | k < n ensures FindsThePlan(plan, paid, lucks, k) <==> FindsThePlan(plan, paid, lucks[..n], k) {
        assert lucks[..n][..k] == lucks[..k];
      }
      if SomeSent(w.rows) {
        var k: nat :| FindsThePlan(plan, paid, lucks[..n], k);
        assert FindsThePlan(plan, paid, lucks, k);
      } else {
        CallMarksExactlyWhen(w, plan, lucks[n]);
        assert SomeSent(Attempt(w, plan, lucks[n]).0.rows) <==> FindsThePlan(plan, paid, lucks, n);
      }
    }
  }

  // ----- said of the failures alone

  function Min(a: nat, b: nat): nat { if a < b then a else b }

  /** A call over a settled escrow whose chain call reports no failure. */
  predicate Answered(luck: Luck) { luck.chain.Submitted? || luck.chain.Reconciled? }

  /** How many winners have no row after a call over a settled escrow that found `missing` without one. */
  function NextMissing(missing: nat, luck: Luck): nat {
    if missing > luck.creates then missing - luck.creates - Bonus(luck.committed)
    else if !Answered(luck) then 0
    else Min(missing, luck.deletes + Bonus(luck.committed))
  }

  function MissingAfter(winners: nat, lucks: seq<Luck>): nat {
    if lucks == [] then winners else NextMissing(MissingAfter(winners, lucks[..|lucks| - 1]), lucks[|lucks| - 1])
  }

  lemma {:induction false} OneRowMore(rows: seq<Row>, row: Row, plan: seq<Pay>)
    requires Distinct(Users(plan)) && !HasRow(rows, row.userId)
    ensures Missing(rows, plan) == Missing(rows + [row], plan) + if row.userId in Users(plan) then 1 else 0
  {
    if plan != [] {
      UsersFromTheFirst(plan);
      OneRowMore(rows, row, plan[1..]);
      FindOneMore(rows, row, plan[0].userId);
    }
  }

  lemma UsersFromTheFirst(plan: seq<Pay>)
    requires plan != []
    ensures Users(plan) == [plan[0].userId] + Users(plan[1..])
    ensures Distinct(Users(plan)) ==> Distinct(Users(plan[1..])) && plan[0].userId !in Users(plan[1..])
  {
    var us, rest := Users(plan), Users(plan[1..]);
    assert us == [plan[0].userId] + rest;
    if Distinct(us) {
      forall i, j | 0 <= i < j < |rest| ensures rest[i] != rest[j] { assert us[i + 1] == rest[i] && us[j + 1] == rest[j]; }
      forall i | 0 <= i < |rest| ensures rest[i] != us[0] { assert us[i + 1] == rest[i]; }
    }
  }

  lemma FindOneMore(rows: seq<Row>, row: Row, user: Uuid)
    ensures Find(rows + [row], user).None? <==> Find(rows, user).None? && row.userId != user
  {
    assert (rows + [row])[|rows|] == row;
    assert forall i | 0 <= i < |rows| :: (rows + [row])[i] == rows[i];
  }

  /** On plan, the rows count what is not missing. */
  lemma {:induction false} MissingIsTheRest(rows: seq<Row>, plan: seq<Pay>)
    requires Distinct(Users(plan)) && OnPlan(rows, plan)
    ensures Missing(rows, plan) + |rows| == |plan|
  {
    if rows == [] {
      AllMissing(plan);
    } else {
      var shorter, last := rows[..|rows| - 1], rows[|rows| - 1];
      assert rows == shorter + [last];
      MissingIsTheRest(shorter, plan);
      assert IsPlanned(last, plan);
      var j :| 0 <= j < |plan| && plan[j] == Pay(last.userId, last.amount);
      assert Users(plan)[j] == last.userId;
      OneRowMore(shorter, last, plan);
    }
  }

  lemma {:induction false} AllMissing(plan: seq<Pay>)
    ensures Missing([], plan) == |plan|
  {
    if plan != [] { AllMissing(plan[1..]); }
  }

  lemma {:induction false} RowsWritten(rows: seq<Row>, existing: seq<Row>, plan: seq<Pay>, creates: nat, committed: bool)
    ensures var (after, stop) := Persist(rows, existing, plan, creates, committed);
            stop != Mismatch ==>
              |after| == |rows| + if Missing(existing, plan) <= creates then Missing(existing, plan) else creates + Bonus(committed)
    decreases |plan|
  {
    if plan != [] {
      if Find(existing, plan[0].userId).Some? {
        RowsWritten(rows, existing, plan[1..], creates, committed);
      } else if creates > 0 {
        RowsWritten(rows + [Row(plan[0].userId, plan[0].amount, Pending)], existing, plan[1..], creates - 1, committed);
      }
    }
  }

  /** The number of rows after a call that wrote down the rest of the plan. */
  lemma RowsAfterWriting(w: World, plan: seq<Pay>, luck: Luck, rows: seq<Row>)
    requires AllWinners(w.rows, plan) && NoDuplicates(w.rows) && w.chain.Settled? && |rows| > |w.rows|
    requires Persist(w.rows, w.rows, plan, luck.creates, luck.committed) == (rows, Done) && Unsent(rows, Users(plan)) != []
    ensures var gone := if Answered(luck) then Min(|rows| - |w.rows|, luck.deletes + Bonus(luck.committed)) else 0;
            |Attempt(w, plan, luck).0.rows| + gone == |rows|
  {
  }

  /** A call that finds rows missing leaves as many missing as its failures say. */
  lemma IncompleteCallLeaves(w: World, plan: seq<Pay>, luck: Luck)
    requires Distinct(Users(plan)) && plan != [] && OnPlan(w.rows, plan) && !SomeSent(w.rows)
    requires w.chain.Settled? && Missing(w.rows, plan) > 0
    ensures |Attempt(w, plan, luck).0.rows| + NextMissing(Missing(w.rows, plan), luck) == |plan|
  {
    PlanWritten(w.rows, plan, luck.creates, luck.committed);
    RowsWritten(w.rows, w.rows, plan, luck.creates, luck.committed);
    MissingIsTheRest(w.rows, plan);
    OnPlanPasses(w.rows, plan);
    var (rows, stop) := Persist(w.rows, w.rows, plan, luck.creates, luck.committed);
    if stop == Done {
      WrittenRowsUnsent(w.rows, plan, luck);
      RowsAfterWriting(w, plan, luck, rows);
    }
  }

  lemma WrittenRowsUnsent(existing: seq<Row>, plan: seq<Pay>, luck: Luck)
    requires Distinct(Users(plan)) && plan != [] && OnPlan(existing, plan) && !SomeSent(existing)
    ensures Unsent(Persist(existing, existing, plan, luck.creates, luck.committed).0, Users(plan)) != []
  {
    Persisted(existing, plan, luck.creates, luck.committed);
    NobodySentYet(Persist(existing, existing, plan, luck.creates, luck.committed).0, plan);
  }

  lemma CallLeaves(w: World, plan: seq<Pay>, luck: Luck, paid: seq<nat>)
    requires Distinct(Users(plan)) && plan != [] && Elsewhere(w, plan, paid)
    ensures Missing(Attempt(w, plan, luck).0.rows, plan) == NextMissing(Missing(w.rows, plan), luck)
  {
    var next := Attempt(w, plan, luck).0;
    ElsewhereKeeps(w, plan, luck, paid);
    NothingMissing(w.rows, plan);
    NothingMissing(next.rows, plan);
    MissingIsTheRest(next.rows, plan);
    if !Complete(w.rows, plan) { IncompleteCallLeaves(w, plan, luck); }
  }

  lemma {:induction false} RunLeaves(plan: seq<Pay>, paid: seq<nat>, lucks: seq<Luck>)
    requires Distinct(Users(plan)) && plan != []
    ensures Missing(Attempts(World([], Settled(paid)), plan, lucks).rows, plan) == MissingAfter(|plan|, lucks)
  {
    if lucks == [] {
      AllMissing(plan);
    } else {
      var n := |lucks| - 1;
      RunLeaves(plan, paid, lucks[..n]);
      InventedOnceComplete(plan, paid, lucks[..n]);
      CallLeaves(Attempts(World([], Settled(paid)), plan, lucks[..n]), plan, lucks[n], paid);
    }
  }

  /** The calls before `k` fail so that no winner is without a row, and call `k` is answered and its first mark written. */
  predicate InventsAt(winners: nat, lucks: seq<Luck>, k: nat) {
    && k < |lucks| && MissingAfter(winners, lucks[..k]) == 0
    && Answered(lucks[k]) && (lucks[k].marks > 0 || lucks[k].committed)
  }

  /**
   * Over every run of calls for an escrow that was settled elsewhere, from no rows: whether some row is ever reported as
   * sent depends on the number of winners and the failures of the calls alone.
   */
  lemma {:induction false} InventedExactlyWhen(plan: seq<Pay>, paid: seq<nat>, lucks: seq<Luck>)
    requires Distinct(Users(plan)) && plan != []
    ensures SomeSent(Attempts(World([], Settled(paid)), plan, lucks).rows)
            <==> exists k: nat :: InventsAt(|plan|, lucks, k)
  {
    InventedOnceComplete(plan, paid, lucks);
    forall k: nat | k < |lucks| ensures FindsThePlan(plan, paid, lucks, k) <==> InventsAt(|plan|, lucks, k) {
      RunLeaves(plan, paid, lucks[..k]);
      NothingMissing(Attempts(World([], Settled(paid)), plan, lucks[..k]).rows, plan);
    }
    if k: nat :| FindsThePlan(plan, paid, lucks, k) { assert InventsAt(|plan|, lucks, k); }
    if k: nat :| InventsAt(|plan|, lucks, k) { assert FindsThePlan(plan, paid, lucks, k); }
  }

  // ----- and it happens

  const ONE_WINNER := [Pay(1, 90)]

  /** A plan whose deletion fails is found written by the next call, which reports as sent what it never paid. */
  lemma AFailedDeletionInventsAPlan()
    ensures var noDelete := Luck(1, Submitted, 1, 0, false);
            Attempts(World([], Settled([])), ONE_WINNER, [noDelete, noDelete]) == World([Row(1, 90, Sent)], Settled([]))
  {
    var w, luck := World([], Settled([])), Luck(1, Submitted, 1, 0, false);
    var row := Row(1, 90, Pending);
    PlanOfOne(luck.creates);
    assert Unsent([row], [1]) == [1] + Unsent([row], [1][1..]);
    assert DeleteCreated([row], 0, 0, false) == [row];
    var once := Attempt(w, ONE_WINNER, luck).0;
    assert once == World([row], Settled([]));
    assert Mark([row], 1, Sent) == [Row(1, 90, Sent)];
    assert MarkAll([row], [1], Sent, 1, false) == [Row(1, 90, Sent)];
    assert Attempt(once, ONE_WINNER, luck).0 == World([Row(1, 90, Sent)], Settled([]));
    assert [luck, luck][..1] == [luck] && [luck][..0] == [];
    assert Attempts(w, ONE_WINNER, [luck]) == once;
  }

  lemma PlanOfOne(creates: nat)
    requires creates > 0
    ensures Users(ONE_WINNER) == [1] && Users(ONE_WINNER)[1..] == []
    ensures Persist([], [], ONE_WINNER, creates, false) == ([Row(1, 90, Pending)], Done)
    ensures Persist([Row(1, 90, Pending)], [Row(1, 90, Pending)], ONE_WINNER, creates, false) == ([Row(1, 90, Pending)], Done)
  {
    var none: seq<Row> := [];
    var row := Row(1, 90, Pending);
    assert ONE_WINNER[1..] == [] && none + [row] == [row];
    assert Persist(none, none, ONE_WINNER, creates, false) == Persist(none + [row], none, ONE_WINNER[1..], creates - 1, false);
  }

  /** No deletion need fail: it is enough that the first call does not reach the chain. */
  lemma AnUnreachableChainInventsAPlan(paid: seq<nat>)
    ensures var lucks := [Luck(1, Refused, 0, 0, false), Luck(0, Submitted, 1, 0, false)];
            SomeSent(Attempts(World([], Settled(paid)), ONE_WINNER, lucks).rows)
  {
    var first, second := Luck(1, Refused, 0, 0, false), Luck(0, Submitted, 1, 0, false);
    assert [first, second][..1] == [first] && [first][..0] == [];
    assert MissingAfter(1, [first]) == NextMissing(1, first) == 0;
    InventedExactlyWhen(ONE_WINNER, paid, [first, second]);
    assert InventsAt(1, [first, second], 1);
  }
}

/** What makes the row, the escrow, the passes and the work on an arena change: each change has exactly these causes. */
module MoneyCauses {
  import opened Cs2Types
  import opened ArenaMoney
  import Gate = EntrySystem

  /** The call or write has its effect, whatever it reports. */
  predicate Gets(luck: Luck) { luck == Works || luck == LostReply }

  predicate IsAt(b: Book, j: nat, job: Job) { j in b.jobs && b.jobs[j] == job }

  predicate Comes(b: Book, m: Move, j: nat, job: Job) { IsAt(Step(b, m), j, job) && !IsAt(b, j, job) }

  predicate NobodyHasPaid(passes: map<Uuid, Pass>) { forall u | u in passes :: passes[u] == Refunded }

  lemma NobodyHasPaidMeans(passes: map<Uuid, Pass>)
    ensures NobodyHasPaid(passes) <==> PaidUsers(passes) == {}
  {
    if u :| u in passes && passes[u] != Refunded { assert u in PaidUsers(passes); }
  }

  /** A lobby goes live, or is cancelled by whoever is through with its escrow; a live arena is finished, or skipped unpaid. */
  lemma RowChangesExactlyWhen(b: Book, m: Move)
    ensures var after := Step(b, m).status;
            && (after == Live && b.status != Live <==> b.status == Lobby && m.GoLive? && Gets(m.luck))
            && (after == Finished && b.status != Finished <==>
                  b.status == Live && m.TryFinish? && IsAt(b, m.j, WantFinish) && Gets(m.luck))
            && (after == Cancelled && b.status != Cancelled <==>
                  || (b.status == Lobby && m.CancelRow? && IsAt(b, m.j, ChainDone) && Gets(m.luck))
                  || (b.status == Live && m.SkipLive? && NobodyHasPaid(b.passes) && Gets(m.luck)))
            && (after == Lobby ==> b.status == Lobby)
  {
    NobodyHasPaidMeans(b.passes);
  }

  /** An open escrow is settled by whoever finished the arena, and cancelled by a cancellation of the lobby or after a skip. */
  lemma EscrowChangesExactlyWhen(b: Book, m: Move)
    ensures var after := Step(b, m).escrow;
            && (after == EscrowSettled && b.escrow != EscrowSettled <==>
                  b.escrow == EscrowOpen && m.PayOut? && IsAt(b, m.j, Won) && Gets(m.luck))
            && (after == EscrowCancelled && b.escrow != EscrowCancelled <==>
                  && b.escrow == EscrowOpen
                  && (|| (m.CancelChain? && IsAt(b, m.j, SawLobby) && Gets(m.luck))
                      || (m.SkipLiveChain? && b.status == Cancelled && Gets(m.luck))))
            && (after == EscrowOpen ==> b.escrow == EscrowOpen) && (after == OffChain <==> b.escrow == OffChain)
  {
  }

  /** The refund of a listed pass is given back: at once off the chain, by the chain from a cancelled escrow. */
  predicate GivesBack(b: Book, m: Move, u: Uuid) {
    && m.RefundOne? && m.user == u && u in b.passes
    && m.j in b.jobs && b.jobs[m.j].Refunding? && u in b.jobs[m.j].listed
    && (b.escrow == OffChain || (b.escrow == EscrowCancelled && Gets(m.chain)))
  }

  /** A pass comes in with an entry of the lobby over an escrow that takes it, and is marked refunded once given back. */
  lemma PassChangesExactlyWhen(b: Book, m: Move, u: Uuid)
    ensures var after := Step(b, m);
            && (u in after.passes && u !in b.passes <==>
                  m == Enter(u) && b.status == Lobby && b.escrow in {OffChain, EscrowOpen} && u !in b.passes)
            && (u in after.passes && u !in b.passes ==> after.passes[u] == Paid)
            && (u in b.passes ==>
                  && u in after.passes
                  && (after.passes[u] == Refunded <==>
                        || b.passes[u] == Refunded
                        || (GivesBack(b, m, u) && Gets(m.mark) && (b.escrow == OffChain || m.chain == Works))))
            && (u in after.chainRefunds <==> u in b.chainRefunds || (b.escrow == EscrowCancelled && GivesBack(b, m, u)))
  {
  }

  /** Who finished the arena is whoever was told so, and only they call for the payout, once each time. */
  lemma PayoutIsCalledExactlyWhen(b: Book, m: Move)
    ensures var after := Step(b, m);
            && after.payouts == b.payouts + (if m.PayOut? && IsAt(b, m.j, Won) then [m.j] else [])
            && after.finisher == if m.TryFinish? && IsAt(b, m.j, WantFinish) && b.status == Live && m.luck == Works
                                 then Some(m.j) else b.finisher
  {
  }

  /** Where each kind of work comes from. */
  lemma WorkComesExactlyFrom(b: Book, m: Move, j: nat, listed: set<Uuid>)
    ensures Comes(b, m, j, WantFinish) <==> m == StartFinish(j) && j !in b.jobs
    ensures Comes(b, m, j, Won) <==> m == TryFinish(j, Works) && IsAt(b, j, WantFinish) && b.status == Live
    ensures Comes(b, m, j, SawLobby) <==> m == StartCancel(j) && j !in b.jobs && b.status == Lobby
    ensures Comes(b, m, j, ChainDone) <==>
              && m.CancelChain? && m.j == j && IsAt(b, j, SawLobby)
              && (b.escrow == OffChain || (b.escrow in {EscrowOpen, EscrowCancelled} && m.luck == Works))
    ensures Comes(b, m, j, Refunding(listed)) <==>
              m == StartRefunds(j) && j !in b.jobs && b.status == Cancelled && listed == PaidUsers(b.passes)
  {
  }

  /** Work ends when it is done with, fails, or dies; other work goes on as it was. */
  lemma WorkEndsExactlyWhen(b: Book, m: Move, j: nat)
    requires j in b.jobs
    ensures j !in Step(b, m).jobs <==>
              || m == Die(j)
              || (m.PayOut? && m.j == j && b.jobs[j] == Won)
              || (m.TryFinish? && m.j == j && b.jobs[j] == WantFinish && !(m.luck == Works && b.status == Live))
              || (m.CancelRow? && m.j == j && b.jobs[j] == ChainDone)
              || (m.CancelChain? && m.j == j && b.jobs[j] == SawLobby && b.escrow != OffChain
                  && (m.luck != Works || b.escrow == EscrowSettled))
  {
  }

  /** Behind the gate: a pass is paid by an accepted request of a new player, and refunded in a cancelled arena. */
  lemma GatePassesChangeExactlyWhen(s: Gate.System, m: Gate.Move, u: Uuid)
    ensures var after := Gate.Step(s, m);
            && (u in after.paid && u !in s.paid <==>
                  && m.Pay? && m.user == u && u !in s.paid + s.refunded
                  && m.h in s.handlers && s.handlers[m.h] == Gate.InFlight)
            && (u in after.refunded && u !in s.refunded <==>
                  m == Gate.Refund(u) && s.status == Gate.Cancelled && u in s.paid && u !in s.refunded)
            && (u !in after.paid && u in s.paid <==> m == Gate.Refund(u) && s.status == Gate.Cancelled && u in s.paid)
  {
  }
}

/** When a poll stream locks a round, in the snapshots' own numbers (cs2/round-tracker.ts, snapshot.ts). */
module RoundClock {
  import opened Cs2Types
  import opened Cs2Settle
  import opened RoundTracker
  import opened RoundEngine
  import opened RoundRuns
  import opened TrackedRuns
  import opened Cs2Answers

  /** The same two teams, and a ticking clock more than half a minute above the one before. */
  predicate Jump(before: GameSnapshot, now: GameSnapshot) {
    SameTwo(before, now) && now.ticking && now.seconds - before.seconds > 30
  }

  predicate Playing(s: GameSnapshot, n: int) { s.first.score + s.second.score == n - 1 }

  // ----- one poll

  /** A round locks exactly on such a jump, if it is the one being played and not the one locked last. */
  lemma LocksExactlyWhen(t: TrackerState, snapshot: Option<GameSnapshot>, n: int)
    ensures RoundLock(n) in Track(t, snapshot).1
            <==> && snapshot.Some? && t.lastSnapshot.Some? && Jump(t.lastSnapshot.value, snapshot.value)
                 && Playing(snapshot.value, n) && t.lockedRound != Some(n)
  {
  }

  /** A round ends exactly when one more round than it stands on the score, and some lock of that stretch is still good. */
  lemma EndsExactlyWhen(t: TrackerState, snapshot: Option<GameSnapshot>, n: int, after: GameSnapshot)
    ensures RoundEnd(n, after) in Track(t, snapshot).1
            <==> && snapshot == Some(after) && (t.lastSnapshot.Some? ==> SameTwo(t.lastSnapshot.value, after))
                 && t.roundInProgress == Some(n) && Playing(after, n + 1) && t.lockSnapshot.Some?
  {
  }

  /** A match ends exactly with the first poll that shows no game, and every game is passed on. */
  lemma OtherSignalsExactlyWhen(t: TrackerState, snapshot: Option<GameSnapshot>, s: GameSnapshot)
    ensures MatchEnd in Track(t, snapshot).1 <==> snapshot.None? && t.lastSnapshot.Some?
    ensures SnapshotSeen(s) in Track(t, snapshot).1 <==> snapshot == Some(s)
  {
  }

  // ----- every stream

  type Stream = seq<Option<GameSnapshot>>

  function TrackAll(stream: Stream): TrackerState {
    if stream == [] then INITIAL else Track(TrackAll(stream[..|stream| - 1]), stream[|stream| - 1]).0
  }

  predicate JumpAt(stream: Stream, i: int) {
    0 < i < |stream| && stream[i - 1].Some? && stream[i].Some? && Jump(stream[i - 1].value, stream[i].value)
  }

  /** Poll `k` and the one before showed the same two teams. */
  predicate Linked(stream: Stream, k: int) {
    0 < k < |stream| && stream[k - 1].Some? && stream[k].Some? && SameTwo(stream[k - 1].value, stream[k].value)
  }

  predicate Unbroken(stream: Stream, i: int) { forall k | i < k < |stream| :: Linked(stream, k) }

  /** The last jump, in round `n`, of the stretch that goes on until the last poll. */
  ghost predicate LastJump(stream: Stream, i: int, n: int) {
    && JumpAt(stream, i) && Playing(stream[i].value, n) && Unbroken(stream, i)
    && forall k | i < k < |stream| :: !JumpAt(stream, k)
  }

  ghost predicate LastJumpWasIn(stream: Stream, n: int) { exists i :: LastJump(stream, i, n) }

  ghost predicate SomeJumpShowed(stream: Stream, s: GameSnapshot) { exists i :: JumpAt(stream, i) && stream[i] == Some(s) }

  /** What the tracker remembers of the stream. */
  ghost predicate Remembers(t: TrackerState, stream: Stream) {
    && t.lastSnapshot == (if stream == [] then None else stream[|stream| - 1])
    && t.roundInProgress
       == (if t.lastSnapshot.None? then None
           else Some(t.lastSnapshot.value.first.score + t.lastSnapshot.value.second.score + 1))
    && (forall n :: t.lockedRound == Some(n) <==> LastJumpWasIn(stream, n))
    && (t.lockSnapshot.Some? ==> SomeJumpShowed(stream, t.lockSnapshot.value))
  }

  lemma SamePrefix(stream: Stream)
    requires stream != []
    ensures forall i | i < |stream| - 1 :: JumpAt(stream, i) <==> JumpAt(stream[..|stream| - 1], i)
    ensures forall i | i < |stream| - 1 :: Linked(stream, i) <==> Linked(stream[..|stream| - 1], i)
  {
  }

  lemma LastJumpGoesOn(stream: Stream, i: int, n: int)
    requires stream != [] && i < |stream| - 1
    ensures LastJump(stream, i, n)
            <==> LastJump(stream[..|stream| - 1], i, n) && Linked(stream, |stream| - 1) && !JumpAt(stream, |stream| - 1)
  {
    var last := |stream| - 1;
    var shorter := stream[..last];
    SamePrefix(stream);
    if JumpAt(stream, i) {
      assert shorter[i] == stream[i];
      assert forall k | i < k < last :: JumpAt(stream, k) <==> JumpAt(shorter, k);
      assert forall k | i < k < last :: Linked(stream, k) <==> Linked(shorter, k);
      assert Unbroken(stream, i) <==> Unbroken(shorter, i) && Linked(stream, last);
    }
  }

  /** Whoever is in a stretch was shown a game by the last poll. */
  lemma StretchShows(stream: Stream, n: int)
    requires LastJumpWasIn(stream, n)
    ensures stream != [] && stream[|stream| - 1].Some?
  {
    var i :| LastJump(stream, i, n);
    if i < |stream| - 1 { assert Linked(stream, |stream| - 1); }
  }

  lemma JumpsOneMore(stream: Stream, n: int)
    requires stream != []
    ensures var last := |stream| - 1;
            LastJumpWasIn(stream, n)
            <==> if JumpAt(stream, last) then Playing(stream[last].value, n)
                 else LastJumpWasIn(stream[..last], n) && Linked(stream, last)
  {
    var last := |stream| - 1;
    if JumpAt(stream, last) {
      if Playing(stream[last].value, n) { assert LastJump(stream, last, n); }
      if i :| LastJump(stream, i, n) { assert i == last; }
    } else {
      if i :| LastJump(stream, i, n) { LastJumpGoesOn(stream, i, n); }
      if i :| Linked(stream, last) && LastJump(stream[..last], i, n) { LastJumpGoesOn(stream, i, n); }
    }
  }

  lemma ShownBefore(stream: Stream, s: GameSnapshot)
    requires stream != []
    ensures SomeJumpShowed(stream[..|stream| - 1], s) ==> SomeJumpShowed(stream, s)
  {
    if i :| JumpAt(stream[..|stream| - 1], i) && stream[i] == Some(s) { assert JumpAt(stream, i); }
  }

  lemma {:induction false} TrackerRemembers(stream: Stream)
    ensures Remembers(TrackAll(stream), stream)
  {
    if stream != [] {
      var last := |stream| - 1;
      TrackerRemembers(stream[..last]);
      RemembersOneMore(TrackAll(stream[..last]), stream);
    }
  }

  lemma RemembersOneMore(t: TrackerState, stream: Stream)
    requires stream != [] && Remembers(t, stream[..|stream| - 1])
    ensures Remembers(Track(t, stream[|stream| - 1]).0, stream)
  {
    var last := |stream| - 1;
    var next := Track(t, stream[last]).0;
    forall n ensures next.lockedRound == Some(n) <==> LastJumpWasIn(stream, n) {
      JumpsOneMore(stream, n);
      LockedNext(t, stream, n);
    }
    if next.lockSnapshot.Some? {
      ShownBefore(stream, next.lockSnapshot.value);
      if next.lockSnapshot != t.lockSnapshot { assert JumpAt(stream, last); }
    }
  }

  lemma LockedNext(t: TrackerState, stream: Stream, n: int)
    requires stream != [] && Remembers(t, stream[..|stream| - 1])
    ensures var last := |stream| - 1;
            Track(t, stream[last]).0.lockedRound == Some(n)
            <==> if JumpAt(stream, last) then Playing(stream[last].value, n)
                 else t.lockedRound == Some(n) && Linked(stream, last)
  {
    var last := |stream| - 1;
    if last > 0 { assert stream[..last][last - 1] == stream[last - 1]; }
    if LastJumpWasIn(stream[..last], n) { StretchShows(stream[..last], n); }
  }

  /**
   * Over every stream, from what it showed alone: the next poll locks round `n` exactly if it jumps in that round, and
   * the last jump before it in the same stretch of the same teams was not in that round already.
   */
  lemma {:induction false} StreamLocksExactlyWhen(stream: Stream, snapshot: Option<GameSnapshot>, n: int)
    ensures RoundLock(n) in Track(TrackAll(stream), snapshot).1
            <==> && JumpAt(stream + [snapshot], |stream|) && Playing(snapshot.value, n) && !LastJumpWasIn(stream, n)
  {
    TrackerRemembers(stream);
    LocksExactlyWhen(TrackAll(stream), snapshot, n);
  }

  // ----- without a jump

  ghost predicate NeverJumps(stream: Stream) { forall i :: !JumpAt(stream, i) }

  ghost predicate Untouched(e: Engine) {
    && e.baselines == map[]
    && (forall n | n in e.rounds :: e.rounds[n].status != Locked)
    && (forall i | 0 <= i < |e.log| :: !e.log[i].WasLocked? && !e.log[i].WasSettled?)
  }

  function Snapshots(polls: seq<Poll>): Stream {
    seq(|polls|, i requires 0 <= i < |polls| => polls[i].snapshot)
  }

  lemma {:induction false} PipelineTracks(teams: (Uuid, Uuid), question: Condition, polls: seq<Poll>)
    ensures RunPolls(Start(teams, question), polls).tracker == TrackAll(Snapshots(polls))
  {
    if polls != [] {
      PipelineTracks(teams, question, polls[..|polls| - 1]);
      assert Snapshots(polls)[..|polls| - 1] == Snapshots(polls[..|polls| - 1]);
    }
  }

  lemma VoidingLeavesUntouched(e: Engine, through: Option<int>)
    requires Consistent(e) && Untouched(e)
    ensures Untouched(VoidRemaining(e, through)) && Consistent(VoidRemaining(e, through))
  {
    VoidEachEffect(e, e.order, through);
    var v := VoidRemaining(e, through);
    forall i | 0 <= i < |v.log| ensures !v.log[i].WasLocked? && !v.log[i].WasSettled? {
      if i < |e.log| { assert v.log[i] == e.log[i]; }
    }
    assert forall n :: n !in v.baselines;
  }

  lemma PollLeavesUntouched(p: Pipeline, poll: Poll)
    requires Inv(p.engine) && Untouched(p.engine)
    requires poll.snapshot.Some? && p.tracker.lastSnapshot.Some? ==> !Jump(p.tracker.lastSnapshot.value, poll.snapshot.value)
    ensures Untouched(OnPoll(p, poll).engine)
  {
    DeliveredSignals(p.tracker, p.engine, poll);
    match poll.snapshot
    case None =>
      var e := p.engine;
      VoidingLeavesUntouched(e, None);
      var ended := HandleMatchEnd(e, poll.finishes);
      assert Untouched(ended);
      VoidingLeavesUntouched(ended.(finished := true), None);
    case Some(now) => LocksExactlyWhen(p.tracker, poll.snapshot, DeriveRoundNumber(now));
  }

  /** A stream in which no two successive polls show such a jump never locks a round and never settles one. */
  lemma {:induction false} WithoutAJumpNothingSettles(teams: (Uuid, Uuid), question: Condition, polls: seq<Poll>)
    requires NeverJumps(Snapshots(polls))
    ensures Untouched(RunPolls(Start(teams, question), polls).engine)
  {
    if polls == [] {
      OpeningIsSound(teams, question);
    } else {
      var n := |polls| - 1;
      var shorter := polls[..n];
      NoJumpBefore(polls);
      WithoutAJumpNothingSettles(teams, question, shorter);
      SettlementsNeverMixRounds(teams, question, shorter);
      LastSeen(teams, question, shorter);
      assert !JumpAt(Snapshots(polls), n);
      PollLeavesUntouched(RunPolls(Start(teams, question), shorter), polls[n]);
    }
  }

  lemma NoJumpBefore(polls: seq<Poll>)
    requires polls != [] && NeverJumps(Snapshots(polls))
    ensures NeverJumps(Snapshots(polls[..|polls| - 1]))
  {
    var stream, shorter := Snapshots(polls), Snapshots(polls[..|polls| - 1]);
    assert stream[..|polls| - 1] == shorter;
    SamePrefix(stream);
    forall i ensures !JumpAt(shorter, i) { assert i < |polls| - 1 ==> !JumpAt(stream, i); }
  }

  lemma LastSeen(teams: (Uuid, Uuid), question: Condition, polls: seq<Poll>)
    ensures RunPolls(Start(teams, question), polls).tracker.lastSnapshot
         == if polls == [] then None else polls[|polls| - 1].snapshot
  {
    PipelineTracks(teams, question, polls);
    TrackerRemembers(Snapshots(polls));
  }
}

/** A runner's end names its series only; yet in every run of the autopilot it takes away no runner but its own. */
module RunnerEnds {
  import opened Cs2Types
  import opened Autopilot

  /** The end of runner `j` is in the queue or under way. */
  ghost predicate EndQueued(jobs: seq<Job>, j: nat) {
    exists i :: 0 <= i < |jobs| && jobs[i].task.EndTask? && jobs[i].task.instance == j && !jobs[i].pc.Done?
  }

  /** Runner `j` has still to report its end, or its report has not been dealt with. */
  ghost predicate Pending(s: Auto, j: nat) { j < |s.started| && (j !in s.ended || EndQueued(s.jobs, j)) }

  predicate IsHandedOver(s: Auto, j: nat) {
    exists i :: 0 <= i < |s.jobs| && s.jobs[i].pc.Running? && s.jobs[i].pc.at.HandingOver? && s.jobs[i].pc.at.instance == j
  }

  predicate IsHeld(s: Auto, j: nat) { (s.runner.Some? && s.runner.value.instance == j) || IsHandedOver(s, j) }

  /** Every end in the queue is the one end of a runner that was started for that series. */
  ghost predicate EndsKnown(s: Auto) {
    && (forall j | j in s.ended :: j < |s.started|)
    && (forall i | 0 <= i < |s.jobs| && s.jobs[i].task.EndTask? ::
          var e := s.jobs[i].task;
          e.instance < |s.started| && s.started[e.instance] == e.grid && e.instance in s.ended)
    && (forall i, k | 0 <= i < k < |s.jobs| && s.jobs[i].task.EndTask? && s.jobs[k].task.EndTask? ::
          s.jobs[i].task.instance != s.jobs[k].task.instance)
  }

  /** No other runner with an end to come is of series `grid`. */
  ghost predicate Alone(s: Auto, j: int, grid: nat) { forall k: nat | Pending(s, k) && k != j :: s.started[k] != grid }

  ghost predicate AllIn(s: Auto, gone: set<nat>) { forall k: nat | Pending(s, k) :: s.started[k] in gone }

  ghost predicate PointKnows(s: Auto, task: Task, at: Point) {
    match at
    case Listing(gone) => gone <= s.left && (s.runner.None? ==> AllIn(s, gone))
    case Looking(gone) => gone <= s.left && AllIn(s, gone)
    case Checking => true
    case Priming(grid) => Alone(s, -1, grid)
    case Creating(grid) => Alone(s, -1, grid)
    case HandingOver(j, grid) => j + 1 == |s.started| && s.started[j] == grid && Alone(s, j, grid)
    case Stopping =>
      s.runner.Some? && (task == EndTask(s.runner.value.instance, s.runner.value.grid) || s.runner.value.grid in s.left)
    case Idling => true
  }

  ghost predicate RunnerKnown(s: Auto) {
    s.runner.Some? ==>
      var r := s.runner.value;
      r.instance < |s.started| && s.started[r.instance] == r.grid && Alone(s, r.instance, r.grid)
  }

  /** Whoever is gone without having its end dealt with was skipped: its series has left. */
  ghost predicate GoneHaveLeft(s: Auto) { forall k: nat | Pending(s, k) && !IsHeld(s, k) :: s.started[k] in s.left }

  ghost predicate Ends(s: Auto) {
    && Inv(s) && EndsKnown(s) && RunnerKnown(s) && GoneHaveLeft(s)
    && (forall i | 0 <= i < |s.jobs| && s.jobs[i].pc.Running? :: PointKnows(s, s.jobs[i].task, s.jobs[i].pc.at))
  }

  // ----- the pending ends only get fewer

  ghost predicate Fewer(s: Auto, next: Auto) {
    && s.started <= next.started && s.left <= next.left
    && forall k: nat | k < |s.started| && Pending(next, k) :: Pending(s, k)
  }

  lemma JobMoved(s: Auto, i: nat, pc: Pc, next: Auto)
    requires i < |s.jobs| && next.jobs == s.jobs[i := s.jobs[i].(pc := pc)] && !s.jobs[i].pc.Done?
    requires next.started == s.started && next.ended == s.ended && s.left <= next.left
    ensures Fewer(s, next)
  {
    forall k: nat | k < |s.started| && Pending(next, k) ensures Pending(s, k) {
      if EndQueued(next.jobs, k) {
        var a :| 0 <= a < |next.jobs| && next.jobs[a].task.EndTask? && next.jobs[a].task.instance == k && !next.jobs[a].pc.Done?;
        assert s.jobs[a].task == next.jobs[a].task;
        assert EndQueued(s.jobs, k);
      }
    }
  }

  lemma EndsStayKnown(s: Auto, i: nat, pc: Pc, next: Auto)
    requires EndsKnown(s) && i < |s.jobs| && next.jobs == s.jobs[i := s.jobs[i].(pc := pc)]
    requires s.started <= next.started && next.ended == s.ended
    ensures EndsKnown(next)
  {
    assert forall a | 0 <= a < |s.jobs| :: next.jobs[a].task == s.jobs[a].task;
  }

  lemma AloneStays(s: Auto, next: Auto, j: int, grid: nat)
    requires Fewer(s, next) && next.started == s.started && Alone(s, j, grid)
    ensures Alone(next, j, grid)
  {
  }

  lemma AllStayIn(s: Auto, next: Auto, gone: set<nat>)
    requires Fewer(s, next) && next.started == s.started && AllIn(s, gone)
    ensures AllIn(next, gone)
  {
  }

  /** What a point knows, it goes on knowing while the runner stays. */
  lemma PointGoesOnKnowing(s: Auto, next: Auto, task: Task, at: Point)
    requires Fewer(s, next) && next.started == s.started && next.runner == s.runner && PointKnows(s, task, at)
    ensures PointKnows(next, task, at)
  {
  }

  // ----- step by step

  /** Records grow, and nothing else happens. */
  lemma RecordsKeep(s: Auto, next: Auto)
    requires Ends(s) && Inv(next) && next.jobs == s.jobs && next.runner == s.runner
    requires next.started == s.started && next.ended == s.ended && s.left <= next.left
    ensures Ends(next)
  {
    assert forall k: nat :: Pending(next, k) <==> Pending(s, k);
    forall k: nat | Pending(next, k) && !IsHeld(next, k) ensures next.started[k] in next.left {
      assert !IsHeld(s, k);
    }
    forall i | 0 <= i < |s.jobs| && s.jobs[i].pc.Running? ensures PointKnows(next, s.jobs[i].task, s.jobs[i].pc.at) {
      PointGoesOnKnowing(s, next, s.jobs[i].task, s.jobs[i].pc.at);
    }
  }

  lemma CalledPending(s: Auto, task: Task, k: nat)
    requires EndsKnown(s) && MayCall(s, task)
    ensures Pending(Step(s, Call(task)), k) <==> Pending(s, k)
    ensures IsHeld(Step(s, Call(task)), k) <==> IsHeld(s, k)
  {
    var next := Step(s, Call(task));
    assert forall i | 0 <= i < |s.jobs| :: next.jobs[i] == s.jobs[i];
    if EndQueued(s.jobs, k) {
      var a :| 0 <= a < |s.jobs| && s.jobs[a].task.EndTask? && s.jobs[a].task.instance == k && !s.jobs[a].pc.Done?;
      assert next.jobs[a] == s.jobs[a];
    }
    if task.EndTask? { assert next.jobs[|s.jobs|] == Job(task, Queued); }
  }

  lemma CallKeepsEnds(s: Auto, task: Task)
    requires Ends(s)
    ensures Ends(Step(s, Call(task)))
  {
    CallKeeps(s, task);
    var next := Step(s, Call(task));
    if MayCall(s, task) {
      forall k: nat ensures (Pending(next, k) <==> Pending(s, k)) && (IsHeld(next, k) <==> IsHeld(s, k)) { CalledPending(s, task, k); }
      CalledIsKnown(s, task);
      forall i | 0 <= i < |next.jobs| && next.jobs[i].pc.Running? ensures PointKnows(next, next.jobs[i].task, next.jobs[i].pc.at) {
        assert i < |s.jobs| && next.jobs[i] == s.jobs[i];
        PointGoesOnKnowing(s, next, s.jobs[i].task, s.jobs[i].pc.at);
      }
    }
  }

  lemma CalledIsKnown(s: Auto, task: Task)
    requires EndsKnown(s) && MayCall(s, task)
    ensures EndsKnown(Step(s, Call(task)))
  {
    var next := Step(s, Call(task));
    forall i, k | 0 <= i < k < |next.jobs| && next.jobs[i].task.EndTask? && next.jobs[k].task.EndTask?
      ensures next.jobs[i].task.instance != next.jobs[k].task.instance
    {
      assert next.jobs[i] == s.jobs[i];
      if k < |s.jobs| { assert next.jobs[k] == s.jobs[k]; }
    }
  }

  /** The held runner is the one whose end it is: no other one with an end to come is of its series. */
  lemma EndFindsItsRunner(s: Auto, i: nat)
    requires Ends(s) && i < |s.jobs| && s.jobs[i].task.EndTask? && !s.jobs[i].pc.Done? && s.runner.Some?
    ensures s.runner.value.grid == s.jobs[i].task.grid <==> s.runner.value.instance == s.jobs[i].task.instance
  {
    var e := s.jobs[i].task;
    assert EndQueued(s.jobs, e.instance);
    assert Pending(s, e.instance);
  }

  /** One job goes on while the runner stays: what is left is what its new point knows. */
  lemma GoesOnKnowing(s: Auto, i: nat, next: Auto)
    requires Ends(s) && i < |s.jobs| && !s.jobs[i].pc.Done? && Inv(next)
    requires forall j | 0 <= j < |s.jobs| && j != i :: !s.jobs[j].pc.Running?
    requires s.jobs[i].pc.Running? ==> !s.jobs[i].pc.at.HandingOver?
    requires exists pc :: next.jobs == s.jobs[i := s.jobs[i].(pc := pc)]
    requires next.runner == s.runner && next.started == s.started && next.ended == s.ended && s.left <= next.left
    requires next.jobs[i].pc.Running? ==> PointKnows(next, next.jobs[i].task, next.jobs[i].pc.at)
    ensures Ends(next)
  {
    var pc :| next.jobs == s.jobs[i := s.jobs[i].(pc := pc)];
    JobMoved(s, i, pc, next);
    EndsStayKnown(s, i, pc, next);
    forall k: nat | Pending(next, k) && !IsHeld(next, k) ensures next.started[k] in next.left {
      assert !IsHandedOver(s, k);
      assert !IsHeld(s, k);
    }
  }

  lemma AllHaveLeft(s: Auto)
    requires GoneHaveLeft(s) && s.runner.None? && !SomeoneRuns(s.jobs)
    ensures AllIn(s, s.left)
  {
    assert forall k: nat :: !IsHandedOver(s, k);
  }

  lemma BeginKeepsEnds(s: Auto, i: nat)
    requires Ends(s) && CanBegin(s, i)
    ensures Ends(BeginJob(s, i))
  {
    TurnMeansFree(s, i);
    BeginKeeps(s, i);
    var next := BeginJob(s, i);
    assert next.jobs == s.jobs[i := s.jobs[i].(pc := next.jobs[i].pc)];
    JobMoved(s, i, next.jobs[i].pc, next);
    if s.runner.None? {
      AllHaveLeft(s);
      AllStayIn(s, next, s.left);
    } else if s.jobs[i].task.EndTask? {
      EndFindsItsRunner(s, i);
    }
    GoesOnKnowing(s, i, next);
  }

  /** A runner came to be: it is on its way, and the last one started. */
  lemma StartedKeeps(s: Auto, i: nat, grid: nat)
    requires Ends(s) && i < |s.jobs| && s.jobs[i].pc == Running(Creating(grid)) && !s.aborted
    ensures Ends(ResolveJob(s, i, Created))
  {
    RunningIsNext(s, i);
    ResolveKeeps(s, i, Created);
    var next := ResolveJob(s, i, Created);
    var n := |s.started|;
    EndsStayKnown(s, i, Running(HandingOver(n, grid)), next);
    forall k: nat ensures Pending(next, k) <==> Pending(s, k) || k == n { StartedPending(s, i, grid, k); }
    assert next.jobs[i].pc == Running(HandingOver(n, grid));
    assert IsHandedOver(next, n);
    assert Alone(next, n, grid);
    forall a | 0 <= a < |next.jobs| && next.jobs[a].pc.Running? ensures PointKnows(next, next.jobs[a].task, next.jobs[a].pc.at) {
      assert a == i;
    }
    forall k: nat | Pending(next, k) && !IsHeld(next, k) ensures next.started[k] in next.left {
      assert !IsHandedOver(s, k);
      assert !IsHeld(s, k);
    }
  }

  lemma StartedPending(s: Auto, i: nat, grid: nat, k: nat)
    requires EndsKnown(s) && i < |s.jobs| && s.jobs[i].pc == Running(Creating(grid)) && !s.aborted
    ensures Pending(ResolveJob(s, i, Created), k) <==> Pending(s, k) || k == |s.started|
  {
    var next := ResolveJob(s, i, Created);
    assert forall a | 0 <= a < |s.jobs| :: next.jobs[a].task == s.jobs[a].task && next.jobs[a].pc.Done? == s.jobs[a].pc.Done?;
    assert EndQueued(next.jobs, k) <==> EndQueued(s.jobs, k);
    assert |s.started| !in s.ended;
  }

  /** The runner on its way is taken on. */
  lemma HandedOverKeeps(s: Auto, i: nat, choice: Choice)
    requires Ends(s) && i < |s.jobs| && s.jobs[i].pc.Running? && s.jobs[i].pc.at.HandingOver?
    ensures Ends(ResolveJob(s, i, choice))
  {
    RunningIsNext(s, i);
    ResolveKeeps(s, i, choice);
    var next := ResolveJob(s, i, choice);
    var at := s.jobs[i].pc.at;
    JobMoved(s, i, Done, next);
    EndsStayKnown(s, i, Done, next);
    AloneStays(s, next, at.instance, at.grid);
    forall k: nat | Pending(next, k) && !IsHeld(next, k) ensures next.started[k] in next.left {
      assert k != at.instance;
      assert !IsHandedOver(s, k);
      assert !IsHeld(s, k);
    }
  }

  /** The runner is gone: by its own end, which is now dealt with, or by a skip. */
  lemma StoppedKeeps(s: Auto, i: nat, choice: Choice)
    requires Ends(s) && i < |s.jobs| && s.jobs[i].pc == Running(Stopping)
    ensures Ends(ResolveJob(s, i, choice))
  {
    RunningIsNext(s, i);
    ResolveKeeps(s, i, choice);
    var next := ResolveJob(s, i, choice);
    JobMoved(s, i, Done, next);
    EndsStayKnown(s, i, Done, next);
    var r := s.runner.value;
    forall k: nat | Pending(next, k) && !IsHeld(next, k) ensures next.started[k] in next.left {
      assert Pending(s, k) && !IsHandedOver(s, k);
      if k == r.instance && s.jobs[i].task == EndTask(r.instance, r.grid) {
        OwnEndIsDealtWith(s, i, next);
        assert false;
      }
    }
  }

  lemma OwnEndIsDealtWith(s: Auto, i: nat, next: Auto)
    requires EndsKnown(s) && i < |s.jobs| && s.jobs[i].task.EndTask?
    requires next.jobs == s.jobs[i := s.jobs[i].(pc := Done)] && next.started == s.started && next.ended == s.ended
    ensures !Pending(next, s.jobs[i].task.instance)
  {
    assert forall a | 0 <= a < |s.jobs| :: next.jobs[a].task == s.jobs[a].task;
  }

  lemma ResolveKeepsEnds(s: Auto, i: nat, choice: Choice)
    requires Ends(s) && i < |s.jobs| && s.jobs[i].pc.Running?
    ensures Ends(ResolveJob(s, i, choice))
  {
    RunningIsNext(s, i);
    var at := s.jobs[i].pc.at;
    var next := ResolveJob(s, i, choice);
    if at.HandingOver? {
      HandedOverKeeps(s, i, choice);
    } else if at.Stopping? {
      StoppedKeeps(s, i, choice);
    } else if at.Creating? && !s.aborted && choice.Created? {
      StartedKeeps(s, i, at.grid);
    } else {
      ResolveKeeps(s, i, choice);
      assert next.jobs == s.jobs[i := s.jobs[i].(pc := next.jobs[i].pc)];
      JobMoved(s, i, next.jobs[i].pc, next);
      GoesOnKnowing(s, i, next);
    }
  }

  lemma {:induction false} EveryRunKeepsEnds(moves: seq<Move>)
    ensures Ends(Run(START, moves))
  {
    if moves == [] {
      assert forall k: nat :: !Pending(START, k);
    } else {
      var s, m := Run(START, moves[..|moves| - 1]), moves[|moves| - 1];
      EveryRunKeepsEnds(moves[..|moves| - 1]);
      match m
      case Call(task) => CallKeepsEnds(s, task);
      case Begin(i) => if CanBegin(s, i) { BeginKeepsEnds(s, i); }
      case Resolve(i, choice) => if i < |s.jobs| && s.jobs[i].pc.Running? { ResolveKeepsEnds(s, i, choice); }
      case _ =>
        StepKeeps(s, m);
        RecordsKeep(s, Step(s, m));
    }
  }

  /** In every run: an end takes the held runner away exactly if it is its own; a stale end changes nothing. */
  lemma {:induction false} EndTakesItsOwnRunner(moves: seq<Move>, i: nat, instance: nat, grid: nat, choice: Choice)
    ensures var s := Run(START, moves);
            var end := Step(Step(s, Begin(i)), Resolve(i, choice));
            CanBegin(s, i) && s.jobs[i].task == EndTask(instance, grid) ==>
              && end.runner == (if s.runner.Some? && s.runner.value.instance == instance then None else s.runner)
              && end.launching == s.launching && end.jobs == s.jobs[i := Job(EndTask(instance, grid), Done)]
              && end.queuedTasks + 1 == s.queuedTasks
  {
    EveryRunKeepsEnds(moves);
    var s := Run(START, moves);
    if CanBegin(s, i) && s.jobs[i].task == EndTask(instance, grid) {
      if s.runner.Some? { EndFindsItsRunner(s, i); }
      BeginKeeps(s, i);
      StepKeeps(BeginJob(s, i), Resolve(i, choice));
      OpenAfter(s.jobs, i, s.jobs[i].(pc := Done));
    }
  }
}

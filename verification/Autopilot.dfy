/** The autopilot's task queue and the start of its runners as an interleaved step system (cs2/autopilot.ts, series-runner.ts). */
module Autopilot {
  import opened Cs2Types

  /** The end of a runner names its series only; `instance` is the runner it came from, which the source does not look at. */
  datatype Task = ResumeTask | TickTask | EndTask(instance: nat, grid: nat) | IdleTask

  /** Where a running task waits for something outside. */
  datatype Point =
    | Listing(gone: set<nat>)                    // resume: the active series, and abandoning those between maps
    | Looking(gone: set<nat>)                    // tick without a runner: active series, setting, candidates
    | Checking                                   // tick with a runner: a requested skip
    | Priming(grid: nat)                         // a launch: the runner polls for a first state of its series
    | Creating(grid: nat)                        // it sets up the series and its orchestrator
    | HandingOver(instance: nat, grid: nat)      // the started runner is on its way to whoever launched it
    | Stopping                                   // the runner drains
    | Idling                                     // the idle task's body

  datatype Pc = Queued | Running(at: Point) | Done

  datatype Job = Job(task: Task, pc: Pc)

  datatype Runner = Runner(instance: nat, grid: nat)

  /**
   * `jobs` is the promise chain: each job waits for the one before it. `started` gives the series of every runner ever
   * started, `ended` those that have reported their end, `left` the series whose row is no longer active.
   */
  datatype Auto = Auto(
    runner: Option<Runner>, launching: bool, jobs: seq<Job>, queuedTasks: nat, aborted: bool,
    started: seq<nat>, ended: set<nat>, left: set<nat>)

  const START := Auto(None, false, [], 0, false, [], {}, {})

  /** `Primed` and `Created` are the outcomes with which a start goes on; it ends with any other. */
  datatype Choice = Launch(grid: nat) | SkipNow | Primed | Created | GoOn

  datatype Move =
    | Call(task: Task)                      // resume(), tick(), onEnd of a runner, or runWhileIdle()
    | Begin(i: nat)
    | Resolve(i: nat, choice: Choice)
    | Leave(grid: nat)                      // the series is decided, invalid or skipped
    | Abort

  predicate HasRunner(s: Auto) { s.launching || s.runner.Some? }

  function Enqueue(s: Auto, task: Task): Auto {
    s.(jobs := s.jobs + [Job(task, Queued)], queuedTasks := s.queuedTasks + 1)
  }

  function At(s: Auto, i: nat, pc: Pc): Auto
    requires i < |s.jobs|
  {
    s.(jobs := s.jobs[i := s.jobs[i].(pc := pc)])
  }

  function EndJob(s: Auto, i: nat): Auto
    requires i < |s.jobs|
  {
    At(s, i, Done).(queuedTasks := if s.queuedTasks > 0 then s.queuedTasks - 1 else 0)
  }

  /** A queued job's turn comes when the job before it is through. */
  predicate CanBegin(s: Auto, i: nat) {
    i < |s.jobs| && s.jobs[i].pc.Queued? && (i == 0 || s.jobs[i - 1].pc.Done?)
  }

  /** Only active series are listed, so those that had left before the task began are not among them. */
  function BeginJob(s: Auto, i: nat): Auto
    requires i < |s.jobs|
  {
    match s.jobs[i].task
    case ResumeTask => At(s, i, Running(Listing(s.left)))
    case TickTask =>
      if s.aborted then EndJob(s, i)
      else if s.runner.Some? then At(s, i, Running(Checking))
      else At(s, i, Running(Looking(s.left)))
    case EndTask(_, grid) =>
      if s.runner.None? || s.runner.value.grid != grid then EndJob(s, i) else At(s, i, Running(Stopping))
    case IdleTask => if HasRunner(s) then EndJob(s, i) else At(s, i, Running(Idling))
  }

  function ResolveJob(s: Auto, i: nat, choice: Choice): Auto
    requires i < |s.jobs| && s.jobs[i].pc.Running?
  {
    match s.jobs[i].pc.at
    case Listing(gone) =>
      if s.runner.Some? || s.aborted || !choice.Launch? || choice.grid in gone then EndJob(s, i)
      else At(s, i, Running(Priming(choice.grid))).(launching := true)
    case Looking(gone) =>
      if !choice.Launch? || choice.grid in gone then EndJob(s, i)
      else At(s, i, Running(Priming(choice.grid))).(launching := true)
    case Checking =>
      // a runner that answers "skipped" has taken its series off "active"
      if choice.SkipNow? && s.runner.Some? then At(s, i, Running(Stopping)).(left := s.left + {s.runner.value.grid})
      else EndJob(s, i)
    case Priming(grid) =>
      if s.aborted || !choice.Primed? then EndJob(s, i).(launching := false) else At(s, i, Running(Creating(grid)))
    case Creating(grid) =>
      if s.aborted || !choice.Created? then EndJob(s, i).(launching := false)
      else At(s, i, Running(HandingOver(|s.started|, grid))).(started := s.started + [grid])
    case HandingOver(instance, grid) => EndJob(s, i).(launching := false, runner := Some(Runner(instance, grid)))
    case Stopping => EndJob(s, i).(runner := None)
    case Idling => EndJob(s, i)
  }

  /** A runner reports its end once, of itself. */
  predicate MayCall(s: Auto, task: Task) {
    match task
    case EndTask(instance, grid) => instance < |s.started| && s.started[instance] == grid && instance !in s.ended
    case IdleTask => s.queuedTasks == 0 && !HasRunner(s)
    case _ => true
  }

  function Step(s: Auto, m: Move): Auto {
    match m
    case Call(task) =>
      if !MayCall(s, task) then s
      else Enqueue(s, task).(ended := if task.EndTask? then s.ended + {task.instance} else s.ended)
    case Begin(i) => if CanBegin(s, i) then BeginJob(s, i) else s
    case Resolve(i, choice) => if i < |s.jobs| && s.jobs[i].pc.Running? then ResolveJob(s, i, choice) else s
    case Leave(grid) => s.(left := s.left + {grid})
    case Abort => s.(aborted := true)
  }

  function Run(s: Auto, moves: seq<Move>): Auto {
    if moves == [] then s else Step(Run(s, moves[..|moves| - 1]), moves[|moves| - 1])
  }

  // ----- the chain: what every interleaving keeps

  function Open(jobs: seq<Job>): nat {
    if jobs == [] then 0 else Open(jobs[..|jobs| - 1]) + if jobs[|jobs| - 1].pc.Done? then 0 else 1
  }

  /** A job that has begun has only finished jobs before it. */
  ghost predicate InTurn(jobs: seq<Job>) { forall i, j | 0 <= i < j < |jobs| && !jobs[j].pc.Queued? :: jobs[i].pc.Done? }

  predicate PointFits(at: Point, runner: Option<Runner>, launching: bool) {
    match at
    case Listing(_) => !launching
    case Looking(_) => runner.None? && !launching
    case Checking => runner.Some? && !launching
    case Priming(_) => runner.None? && launching
    case Creating(_) => runner.None? && launching
    case HandingOver(_, _) => runner.None? && launching
    case Stopping => runner.Some? && !launching
    case Idling => runner.None? && !launching
  }

  ghost predicate SomeoneRuns(jobs: seq<Job>) { exists i :: 0 <= i < |jobs| && jobs[i].pc.Running? }

  ghost predicate Inv(s: Auto) {
    && InTurn(s.jobs)
    && s.queuedTasks == Open(s.jobs)
    && (forall i | 0 <= i < |s.jobs| && s.jobs[i].pc.Running? :: PointFits(s.jobs[i].pc.at, s.runner, s.launching))
    && (s.launching ==> SomeoneRuns(s.jobs))
  }

  lemma {:induction false} OpenAfter(jobs: seq<Job>, i: nat, job: Job)
    requires i < |jobs|
    ensures Open(jobs[i := job]) + (if jobs[i].pc.Done? then 0 else 1) == Open(jobs) + (if job.pc.Done? then 0 else 1)
  {
    var n := |jobs| - 1;
    if i < n {
      OpenAfter(jobs[..n], i, job);
      assert jobs[i := job][..n] == jobs[..n][i := job];
    } else {
      assert jobs[i := job][..n] == jobs[..n];
    }
  }

  lemma OpenOneMore(jobs: seq<Job>, job: Job)
    ensures Open(jobs + [job]) == Open(jobs) + if job.pc.Done? then 0 else 1
  {
    assert (jobs + [job])[..|jobs|] == jobs;
  }

  /** The same chain, whoever has started, ended or left. */
  lemma OtherRecords(s: Auto, next: Auto)
    requires Inv(s) && next.jobs == s.jobs && next.queuedTasks == s.queuedTasks
    requires next.runner == s.runner && next.launching == s.launching
    ensures Inv(next)
  {
  }

  /** The job at `i` goes on to `pc`, with the runner and the launching flag as given. */
  lemma GoesOn(s: Auto, i: nat, pc: Pc, runner: Option<Runner>, launching: bool, next: Auto)
    requires Inv(s) && i < |s.jobs| && !s.jobs[i].pc.Done? && !pc.Queued?
    requires forall j | 0 <= j < i :: s.jobs[j].pc.Done?
    requires pc.Running? ==> PointFits(pc.at, runner, launching)
    requires pc.Done? ==> !launching
    requires var moved := if pc.Done? then EndJob(s, i) else At(s, i, pc);
             && next.jobs == moved.jobs && next.queuedTasks == moved.queuedTasks
             && next.runner == runner && next.launching == launching
    ensures Inv(next)
  {
    OpenAfter(s.jobs, i, s.jobs[i].(pc := pc));
    assert forall j | i < j < |s.jobs| :: s.jobs[j].pc.Queued?;
    if launching { assert next.jobs[i].pc.Running?; }
  }

  lemma CallKeeps(s: Auto, task: Task)
    requires Inv(s)
    ensures Inv(Step(s, Call(task)))
  {
    if MayCall(s, task) {
      OpenOneMore(s.jobs, Job(task, Queued));
      var next := Step(s, Call(task));
      if s.launching {
        var i :| 0 <= i < |s.jobs| && s.jobs[i].pc.Running?;
        assert next.jobs[i].pc.Running?;
      }
    }
  }

  /** Nobody runs when a job's turn has come. */
  lemma TurnMeansFree(s: Auto, i: nat)
    requires Inv(s) && CanBegin(s, i)
    ensures !s.launching && (forall j | 0 <= j < i :: s.jobs[j].pc.Done?) && !SomeoneRuns(s.jobs)
  {
    if SomeoneRuns(s.jobs) {
      var j :| 0 <= j < |s.jobs| && s.jobs[j].pc.Running?;
      assert false;
    }
  }

  lemma BeginKeeps(s: Auto, i: nat)
    requires Inv(s) && CanBegin(s, i)
    ensures Inv(BeginJob(s, i))
  {
    TurnMeansFree(s, i);
    var next := BeginJob(s, i);
    GoesOn(s, i, next.jobs[i].pc, s.runner, false, next);
  }

  lemma RunningIsNext(s: Auto, i: nat)
    requires Inv(s) && i < |s.jobs| && s.jobs[i].pc.Running?
    ensures PointFits(s.jobs[i].pc.at, s.runner, s.launching)
    ensures forall j | 0 <= j < |s.jobs| && j != i :: !s.jobs[j].pc.Running?
    ensures forall j | 0 <= j < i :: s.jobs[j].pc.Done?
  {
  }

  lemma ResolveKeeps(s: Auto, i: nat, choice: Choice)
    requires Inv(s) && i < |s.jobs| && s.jobs[i].pc.Running?
    ensures Inv(ResolveJob(s, i, choice))
  {
    RunningIsNext(s, i);
    var next := ResolveJob(s, i, choice);
    GoesOn(s, i, next.jobs[i].pc, next.runner, next.launching, next);
  }

  lemma StepKeeps(s: Auto, m: Move)
    requires Inv(s)
    ensures Inv(Step(s, m))
  {
    match m
    case Call(task) => CallKeeps(s, task);
    case Begin(i) => if CanBegin(s, i) { BeginKeeps(s, i); }
    case Resolve(i, choice) => if i < |s.jobs| && s.jobs[i].pc.Running? { ResolveKeeps(s, i, choice); }
    case _ => OtherRecords(s, Step(s, m));
  }

  lemma {:induction false} EveryRunKeeps(s: Auto, moves: seq<Move>)
    requires Inv(s)
    ensures Inv(Run(s, moves))
  {
    if moves != [] {
      EveryRunKeeps(s, moves[..|moves| - 1]);
      StepKeeps(Run(s, moves[..|moves| - 1]), moves[|moves| - 1]);
    }
  }

  // ----- what that means

  /** Tasks run one at a time, in the order in which they were called. */
  lemma OneTaskAtATime(moves: seq<Move>, i: nat, j: nat)
    requires var jobs := Run(START, moves).jobs; i < j < |jobs| && !jobs[j].pc.Queued?
    ensures Run(START, moves).jobs[i].pc.Done?
  {
    EveryRunKeeps(START, moves);
  }

  /** Never two runners, and none beside a launch; an idle body overlaps neither. */
  lemma OneRunnerAtMost(moves: seq<Move>, i: nat)
    ensures var s := Run(START, moves);
            && !(s.launching && s.runner.Some?)
            && (i < |s.jobs| && s.jobs[i].pc == Running(Idling) ==> !HasRunner(s))
  {
    EveryRunKeeps(START, moves);
    var s := Run(START, moves);
    if s.launching {
      var j :| 0 <= j < |s.jobs| && s.jobs[j].pc.Running?;
      assert PointFits(s.jobs[j].pc.at, s.runner, s.launching);
    }
  }

  /** The queue goes on: a job can begin exactly if all before it are through. */
  lemma QueueGoesOn(moves: seq<Move>, i: nat)
    ensures var s := Run(START, moves);
            i < |s.jobs| && s.jobs[i].pc.Queued? ==> (CanBegin(s, i) <==> forall j | 0 <= j < i :: s.jobs[j].pc.Done?)
  {
    EveryRunKeeps(START, moves);
    var s := Run(START, moves);
    if i < |s.jobs| && CanBegin(s, i) && i > 0 { assert !s.jobs[i - 1].pc.Queued?; }
  }

  lemma {:induction false} NoneOpen(jobs: seq<Job>)
    ensures Open(jobs) == 0 <==> forall i | 0 <= i < |jobs| :: jobs[i].pc.Done?
  {
    if jobs != [] { NoneOpen(jobs[..|jobs| - 1]); }
  }

  /** Idle work is taken on exactly while nothing is queued or under way and no runner is held. */
  lemma IdleExactlyWhen(moves: seq<Move>)
    ensures var s := Run(START, moves);
            MayCall(s, IdleTask) <==> s.runner == None && forall i | 0 <= i < |s.jobs| :: s.jobs[i].pc.Done?
  {
    EveryRunKeeps(START, moves);
    NoneOpen(Run(START, moves).jobs);
  }

  // ----- after the abort

  /** A start that has passed both of its checks for the abort. */
  ghost predicate SomeoneHandsOver(s: Auto) { exists i :: 0 <= i < |s.jobs| && s.jobs[i].pc.Running? && s.jobs[i].pc.at.HandingOver? }

  /** A tick that passed its check before the abort. */
  ghost predicate SomeoneLooks(s: Auto) { exists i :: 0 <= i < |s.jobs| && s.jobs[i].pc.Running? && s.jobs[i].pc.at.Looking? }

  lemma NoHandoverStays(s: Auto, m: Move)
    requires s.aborted && !SomeoneHandsOver(s)
    ensures var next := Step(s, m);
            next.aborted && !SomeoneHandsOver(next) && (next.runner == s.runner || next.runner.None?)
  {
    match m
    case Begin(i) => if CanBegin(s, i) { StillNoHandover(s, i, BeginJob(s, i)); }
    case Resolve(i, choice) =>
      if i < |s.jobs| && s.jobs[i].pc.Running? { StillNoHandover(s, i, ResolveJob(s, i, choice)); }
    case Call(task) =>
      assert forall i | 0 <= i < |s.jobs| :: !(s.jobs[i].pc.Running? && s.jobs[i].pc.at.HandingOver?);
    case _ =>
  }

  lemma StillNoHandover(s: Auto, i: nat, next: Auto)
    requires !SomeoneHandsOver(s) && i < |s.jobs| && |next.jobs| == |s.jobs| && next.jobs == s.jobs[i := next.jobs[i]]
    requires !(next.jobs[i].pc.Running? && next.jobs[i].pc.at.HandingOver?)
    ensures !SomeoneHandsOver(next)
  {
    assert forall k | 0 <= k < |s.jobs| :: !(s.jobs[k].pc.Running? && s.jobs[k].pc.at.HandingOver?);
  }

  lemma {:induction false} NoRunnerTakenOn(s: Auto, moves: seq<Move>)
    requires s.aborted && !SomeoneHandsOver(s)
    ensures var end := Run(s, moves);
            end.aborted && !SomeoneHandsOver(end) && (end.runner == s.runner || end.runner.None?)
  {
    if moves != [] {
      NoRunnerTakenOn(s, moves[..|moves| - 1]);
      NoHandoverStays(Run(s, moves[..|moves| - 1]), moves[|moves| - 1]);
    }
  }

  /** Some continuation holds a runner that is not held now. */
  ghost predicate CanStillTakeOn(s: Auto) { exists moves: seq<Move> :: Run(s, moves).runner !in {None, s.runner} }

  lemma OneMove(s: Auto, m: Move)
    ensures Run(s, [m]) == Step(s, m)
  {
    assert [m][..0] == [];
  }

  /** After the abort a runner can still be taken on exactly while one is on its way that had passed its last check. */
  lemma {:induction false} RunnerAfterTheAbortExactlyWhen(moves: seq<Move>)
    ensures var s := Run(START, moves); s.aborted ==> (CanStillTakeOn(s) <==> SomeoneHandsOver(s))
  {
    var s := Run(START, moves);
    EveryRunKeeps(START, moves);
    if s.aborted {
      if SomeoneHandsOver(s) {
        var i: nat :| i < |s.jobs| && s.jobs[i].pc.Running? && s.jobs[i].pc.at.HandingOver?;
        OneMove(s, Resolve(i, GoOn));
      } else {
        forall more: seq<Move> ensures Run(s, more).runner in {None, s.runner} { NoRunnerTakenOn(s, more); }
      }
    }
  }

  lemma QuietStays(s: Auto, m: Move)
    requires s.aborted && !s.launching && !SomeoneLooks(s)
    ensures var next := Step(s, m); next.aborted && !next.launching && !SomeoneLooks(next)
  {
    var next := Step(s, m);
    forall i | 0 <= i < |next.jobs| ensures !(next.jobs[i].pc.Running? && next.jobs[i].pc.at.Looking?) {
      if i < |s.jobs| { assert !(s.jobs[i].pc.Running? && s.jobs[i].pc.at.Looking?); }
    }
  }

  lemma {:induction false} QuietForGood(s: Auto, moves: seq<Move>)
    requires s.aborted && !s.launching && !SomeoneLooks(s)
    ensures var end := Run(s, moves); end.aborted && !end.launching && !SomeoneLooks(end)
  {
    if moves != [] {
      QuietForGood(s, moves[..|moves| - 1]);
      QuietStays(Run(s, moves[..|moves| - 1]), moves[|moves| - 1]);
    }
  }

  ghost predicate CanStillLaunch(s: Auto) { exists moves: seq<Move> :: Run(s, moves).launching }

  /** After the abort a launch can still start exactly while a tick that began before it is looking for a series. */
  lemma {:induction false} LaunchAfterTheAbortExactlyWhen(s: Auto)
    requires s.aborted && !s.launching
    ensures CanStillLaunch(s) <==> SomeoneLooks(s)
  {
    if SomeoneLooks(s) {
      var i: nat :| i < |s.jobs| && s.jobs[i].pc.Running? && s.jobs[i].pc.at.Looking?;
      var grid := UnusedId(s.jobs[i].pc.at.gone);
      OneMove(s, Resolve(i, Launch(grid)));
    } else {
      forall moves: seq<Move> ensures !Run(s, moves).launching { QuietForGood(s, moves); }
    }
  }

  // ----- the exceptions

  lemma RunOneMore(s: Auto, moves: seq<Move>, m: Move)
    ensures Run(s, moves + [m]) == Step(Run(s, moves), m)
  {
    assert (moves + [m])[..|moves|] == moves;
  }

  const FIRST_TICK := Auto(None, false, [Job(TickTask, Running(Looking({})))], 1, false, [], {}, {})

  lemma ATickLooks()
    ensures Run(START, [Call(TickTask)] + [Begin(0)]) == FIRST_TICK
  {
    OneMove(START, Call(TickTask));
    RunOneMore(START, [Call(TickTask)], Begin(0));
  }

  /** A tick looks, the shutdown aborts, and the tick launches; but no runner ever comes of it. */
  lemma ALaunchStartsAfterTheAbort()
    ensures var s := Run(START, [Call(TickTask)] + [Begin(0)] + [Abort] + [Resolve(0, Launch(7))]);
            s.aborted && s.launching && forall more: seq<Move> :: Run(s, more).runner.None?
  {
    ATickLooks();
    var begun := [Call(TickTask)] + [Begin(0)];
    RunOneMore(START, begun, Abort);
    RunOneMore(START, begun + [Abort], Resolve(0, Launch(7)));
    var s := Run(START, begun + [Abort] + [Resolve(0, Launch(7))]);
    forall more: seq<Move> ensures Run(s, more).runner.None? { NoRunnerTakenOn(s, more); }
  }

  /**
   * A property of the model, which lets any step come between the start's last check and the launcher that gets the runner:
   * then the abort can fall there. In the source only microtasks run in between, and none of them aborts.
   */
  lemma ARunnerComesInAfterTheAbort()
    ensures var moves := [Resolve(0, Launch(7))] + [Resolve(0, Primed)] + [Resolve(0, Created)] + [Abort] + [Resolve(0, GoOn)];
            Run(FIRST_TICK, moves).aborted && Run(FIRST_TICK, moves).runner == Some(Runner(0, 7))
  {
    var a := [Resolve(0, Launch(7))];
    var b := a + [Resolve(0, Primed)];
    var c := b + [Resolve(0, Created)];
    OneMove(FIRST_TICK, Resolve(0, Launch(7)));
    RunOneMore(FIRST_TICK, a, Resolve(0, Primed));
    RunOneMore(FIRST_TICK, b, Resolve(0, Created));
    RunOneMore(FIRST_TICK, c, Abort);
    RunOneMore(FIRST_TICK, c + [Abort], Resolve(0, GoOn));
  }
}

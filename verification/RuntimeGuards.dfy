// How exact the guards of the worker runtime are: a start or a respawn outside its guard can
// break the promise of one task per worker, and runs from the initial state get there.
module RuntimeGuards {
  import opened Outcomes
  import opened Runtime

  // ----- The promise -----

  // Every live worker task is the recorded one, and a stopped supervisor has nothing live.
  ghost predicate Promise(s: State)
  {
    Recorded(s) && (!s.started ==> NoneLive(s))
  }

  // However the run goes on, as long as every further step is guarded.
  ghost predicate Keeps(s: State)
  {
    forall steps :: Possible(s, steps) && Guarded(s, steps) ==> Promise(Exec(s, steps))
  }

  ghost predicate KeepsOneTask(s: State)
  {
    forall steps :: Possible(s, steps) && Guarded(s, steps) ==> Recorded(Exec(s, steps))
  }

  lemma InvKeeps(s: State)
    requires Inv(s)
    ensures Keeps(s) && KeepsOneTask(s)
  {
    forall steps | Possible(s, steps) && Guarded(s, steps) ensures Promise(Exec(s, steps)) {
      RunInv(s, steps);
    }
  }

  // A continuation that breaks it; in-process, by a task that is not recorded.
  ghost predicate Breaks(s: State, steps: seq<Step>)
  {
    && Possible(s, steps) && Guarded(s, steps)
    && !Promise(Exec(s, steps)) && (s.inProcess ==> !Recorded(Exec(s, steps)))
  }

  lemma BreaksKeeps(s: State, steps: seq<Step>)
    requires Breaks(s, steps)
    ensures !Keeps(s) && (s.inProcess ==> !KeepsOneTask(s))
  {
  }

  // ----- Running one step, and steps after steps -----

  lemma OneStep(s: State, step: Step)
    requires Enabled(s, step)
    ensures Possible(s, [step]) && Exec(s, [step]) == Apply(s, step)
    ensures Guarded(s, [step]) <==> Guard(s, step)
  {
    hide Enabled, Guard, Apply;
    assert [step][1..] == [];
    assert Possible(Apply(s, step), []) && Guarded(Apply(s, step), []);
  }

  lemma {:induction false} Chained(s: State, steps: seq<Step>, more: seq<Step>)
    requires Possible(s, steps) && Possible(Exec(s, steps), more)
    ensures Possible(s, steps + more) && Exec(s, steps + more) == Exec(Exec(s, steps), more)
    ensures Guarded(s, steps + more) <==> Guarded(s, steps) && Guarded(Exec(s, steps), more)
    decreases |steps|
  {
    hide Enabled, Guard, Apply;
    if steps == [] {
      assert steps + more == more;
    } else {
      assert (steps + more)[0] == steps[0] && (steps + more)[1..] == steps[1..] + more;
      Chained(Apply(s, steps[0]), steps[1..], more);
    }
  }

  lemma Then(s: State, steps: seq<Step>, step: Step)
    requires Possible(s, steps) && Enabled(Exec(s, steps), step)
    ensures Possible(s, steps + [step]) && Exec(s, steps + [step]) == Apply(Exec(s, steps), step)
    ensures Guarded(s, steps + [step]) <==> Guarded(s, steps) && Guard(Exec(s, steps), step)
  {
    hide Enabled, Guard, Apply, Possible, Guarded, Exec;
    OneStep(Exec(s, steps), step);
    Chained(s, steps, [step]);
  }

  // ----- Cancelled tasks can always end -----

  // The resumption that ends a cancelled task.
  function EndStep(s: State, t: TaskId): Step
    requires t < |s.all|
  {
    match s.all[t].kind
    case Worker(_) =>
      WorkerRuns(t, if s.all[t].pc.Running? then HandlerDone else if s.all[t].pc.Top? then LoopFault else NoJob)
    case Monitor => MonitorRuns(t, false)
    case Scheduler => SchedulerRuns(t, false)
  }

  // Nothing but the task itself and the log has changed.
  ghost predicate EndedOnly(s: State, r: State, t: TaskId)
    requires t < |s.all|
  {
    r == s.(all := s.all[t := s.all[t].(pc := Ended)], log := r.log)
  }

  lemma EndsNow(s: State, t: TaskId)
    requires WellTyped(s) && t < |s.all| && s.all[t].Live() && s.all[t].cancel
    ensures Enabled(s, EndStep(s, t)) && Guard(s, EndStep(s, t))
    ensures EndedOnly(s, Apply(s, EndStep(s, t)), t)
  {
    assert Fits(s.all[t].kind, s.all[t].pc);
  }

  lemma EndedTyped(s: State, r: State, t: TaskId)
    requires WellTyped(s) && t < |s.all| && EndedOnly(s, r, t)
    ensures WellTyped(r)
  {
  }

  ghost predicate Drained(s: State, r: State, n: nat)
    requires n <= |s.all|
  {
    && r == s.(all := r.all, log := r.log) && |r.all| == |s.all|
    && (forall t :: 0 <= t < n ==> !r.all[t].Live())
    && (forall t :: n <= t < |s.all| ==> r.all[t] == s.all[t])
  }

  // The first n tasks, if all of them are ended or cancelled, end while nothing else moves.
  lemma {:induction false} Drain(s: State, n: nat) returns (steps: seq<Step>)
    requires WellTyped(s) && n <= |s.all|
    requires forall t :: 0 <= t < n && s.all[t].Live() ==> s.all[t].cancel
    ensures Possible(s, steps) && Guarded(s, steps) && Drained(s, Exec(s, steps), n)
    decreases n
  {
    hide WellTyped, Enabled, Guard, Apply;
    if n == 0 {
      steps := [];
    } else if !s.all[n - 1].Live() {
      steps := Drain(s, n - 1);
    } else {
      var step := EndStep(s, n - 1);
      EndsNow(s, n - 1);
      var r := Apply(s, step);
      EndedTyped(s, r, n - 1);
      var more := Drain(r, n - 1);
      steps := [step] + more;
      assert steps[0] == step && steps[1..] == more;
    }
  }

  // ----- Respawning -----

  lemma OldTaskForgotten(s: State, w: nat)
    requires WellTyped(s) && w < SPECS && !Down(s, w)
    ensures !Recorded(Respawn(s, w))
  {
    var s2, u := Respawn(s, w), s.tasks[w];
    assert s2.all[u] == s.all[u] && s2.tasks[w] != u;
  }

  lemma {:induction false} ScanLeaves(s: State, t: TaskId, w: nat, fault: bool)
    requires t < |s.all| && |s.restarts| == SPECS
    ensures var r := Scan(s, t, w, fault);
      && r.tasks == s.tasks && |r.all| == |s.all|
      && forall u :: 0 <= u < |s.all| && u != t ==> r.all[u] == s.all[u]
    decreases SPECS - w
  {
    if w < SPECS && !Down(s, w) {
      ScanLeaves(s, t, w + 1, fault);
    }
  }

  // A monitor that attends to the worker spawns it a second time.
  lemma SpawnedAgain(s: State, w: nat, m: TaskId)
    requires |s.restarts| == SPECS && w < SPECS && m < |s.all| && s.all[m].Live() && Attends(s.all[m], w)
    ensures var r, t := Respawn(s, w), |s.all|;
      && Enabled(r, MonitorRuns(m, false))
      && var r' := Apply(r, MonitorRuns(m, false));
      && t + 1 < |r'.all| && r'.all[t] == r'.all[t + 1] == Task(Worker(w), Fresh, false)
      && w in r'.tasks && r'.tasks[w] == t + 1
  {
    var r, t := Respawn(s, w), |s.all|;
    assert r.all[m] == s.all[m] && r.all[t] == Task(Worker(w), Fresh, false);
    var r1 := Spawn(Goto(r, m, Heartbeat), w);
    ScanLeaves(r1, m, w + 1, false);
    hide Scan;
    assert Apply(r, MonitorRuns(m, false)) == Scan(r1, m, w + 1, false);
  }

  lemma DoubledByMonitor(s: State, w: nat, m: TaskId)
    requires Inv(s) && w < SPECS && m < |s.all| && s.all[m].Live() && Attends(s.all[m], w)
    ensures Breaks(Respawn(s, w), [MonitorRuns(m, false)])
  {
    hide Apply, Enabled, Inv;
    InvTyped(s);
    var r, t := Respawn(s, w), |s.all|;
    SpawnedAgain(s, w, m);
    OneStep(r, MonitorRuns(m, false));
    var r' := Apply(r, MonitorRuns(m, false));
    assert r'.all[t].Live() && r'.tasks[w] != t;
  }

  lemma StopForgets(s: State, t: TaskId, w: nat)
    requires t < |s.all| && s.all[t].kind == Worker(w) && s.all[t].Live() && Enabled(s, StopEnd(0))
    ensures Breaks(s, [StopEnd(0)])
  {
    OneStep(s, StopEnd(0));
    assert DoStopEnd(s, 0).all[t] == s.all[t];
  }

  // A stop that waits for the older tasks only forgets the new one.
  lemma ForgottenByStop(s: State, w: nat) returns (steps: seq<Step>)
    requires Inv(s) && w < SPECS && s.stops != []
    ensures Breaks(Respawn(s, w), steps)
  {
    var r, t := Respawn(s, w), |s.all|;
    OldCancelled(s, w);
    steps := Drain(r, t);
    var r1 := Exec(r, steps);
    hide Inv, WellTyped;
    assert r1.all[t] == r.all[t] == Task(Worker(w), Fresh, false);
    assert Enabled(r1, StopEnd(0));
    StopForgets(r1, t, w);
    Chained(r, steps, [StopEnd(0)]);
    steps := steps + [StopEnd(0)];
  }

  lemma OldCancelled(s: State, w: nat)
    requires Inv(s) && w < SPECS && s.stops != []
    ensures WellTyped(Respawn(s, w))
    ensures forall t :: 0 <= t < |s.all| && s.all[t].Live() ==> Respawn(s, w).all[t].cancel
    ensures forall t :: t in s.stops[0] ==> t < |s.all|
  {
    forall t | 0 <= t < |s.all| && s.all[t].Live() ensures s.all[t].cancel {
      CancelledDuringStop(s, t);
    }
  }

  lemma {:induction false} SpawnFromRecords(s: State, w: nat)
    ensures var r := SpawnFrom(s, w);
      && s.all <= r.all && r.stops == s.stops && r.started == s.started
      && (forall v :: w <= v < SPECS ==> v in r.tasks && r.tasks[v] >= |s.all|)
      && (w < SPECS ==> |s.all| < |r.all| && r.all[|s.all|] == Task(Worker(w), Fresh, false))
    decreases SPECS - w
  {
    if w < SPECS {
      SpawnFromRecords(Spawn(s, w), w + 1);
    }
  }

  lemma StartRecords(s: State, t: TaskId)
    requires !s.started && s.inProcess && t < |s.all| && s.all[t].kind.Worker? && s.all[t].kind.spec < SPECS
    requires s.all[t].Live()
    ensures !Recorded(DoStart(s))
  {
    SpawnFromRecords(s.(started := true, stopEvent := false), 0);
    hide SpawnFrom;
    assert DoStart(s).all[t] == s.all[t];
  }

  // On a stopped supervisor the new task runs on its own, and the next start doubles it.
  lemma DoubledByStart(s: State, w: nat) returns (steps: seq<Step>)
    requires Inv(s) && w < SPECS && s.stops == [] && !s.started
    ensures Breaks(Respawn(s, w), steps)
  {
    var r, t := Respawn(s, w), |s.all|;
    assert r.all[t] == Task(Worker(w), Fresh, false);
    if s.inProcess {
      OneStep(r, Start);
      StartRecords(r, t);
      hide Inv, DoStart;
      steps := [Start];
    } else {
      steps := [];
    }
  }

  lemma RespawnBreaks(s: State, w: nat) returns (steps: seq<Step>)
    requires Inv(s) && w < SPECS && !MayRespawn(s, w)
    ensures Breaks(Respawn(s, w), steps)
  {
    hide Inv, Breaks;
    if s.stops != [] {
      steps := ForgottenByStop(s, w);
    } else if !s.started {
      steps := DoubledByStart(s, w);
    } else if !Down(s, w) {
      InvTyped(s);
      OldTaskForgotten(s, w);
      steps := [];
      NothingMore(Respawn(s, w));
    } else {
      var m: nat :| m < |s.all| && Attends(s.all[m], w);
      DoubledByMonitor(s, w, m);
      steps := [MonitorRuns(m, false)];
    }
  }

  lemma InvTyped(s: State)
    requires Inv(s)
    ensures WellTyped(s)
  {
  }

  lemma NothingMore(s: State)
    requires !Recorded(s)
    ensures Breaks(s, [])
  {
  }

  // The spawn that ends a restart keeps the promise over every guarded continuation exactly
  // when the supervisor runs, nobody is stopping it, the worker is down, and no monitor is
  // about to revive it. With in-process workers this is so for one task per worker alone.
  lemma RespawnExact(s: State, w: nat)
    requires Inv(s) && w < SPECS
    ensures Keeps(Respawn(s, w)) <==> MayRespawn(s, w)
    ensures s.inProcess ==> (KeepsOneTask(Respawn(s, w)) <==> MayRespawn(s, w))
  {
    InvTyped(s);
    hide Inv, Keeps, KeepsOneTask, Breaks;
    if MayRespawn(s, w) {
      RespawnInv(s, w);
      InvKeeps(Respawn(s, w));
    } else {
      var steps := RespawnBreaks(s, w);
      BreaksKeeps(Respawn(s, w), steps);
    }
  }

  // ----- Starting -----

  // The first worker started is a live task that only the table records.
  lemma FirstStarted(s: State)
    requires !s.started && s.inProcess
    ensures var r, t := DoStart(s), |s.all|;
      && t < |r.all| && s.all <= r.all && r.stops == s.stops && r.inProcess == s.inProcess
      && r.all[t] == Task(Worker(0), Fresh, false)
  {
    SpawnFromRecords(s.(started := true, stopEvent := false), 0);
    SpawnFromInProcess(s.(started := true, stopEvent := false), 0);
    hide SpawnFrom;
  }

  lemma {:induction false} SpawnFromInProcess(s: State, w: nat)
    ensures SpawnFrom(s, w).inProcess == s.inProcess
    decreases SPECS - w
  {
    if w < SPECS {
      SpawnFromInProcess(Spawn(s, w), w + 1);
    }
  }

  lemma EndedStayEnded(s: State, r: State)
    requires Inv(s) && !s.started && s.stops != [] && s.all <= r.all && r.stops == s.stops
    ensures Enabled(r, StopEnd(0))
  {
    forall u | u in s.stops[0] ensures u < |r.all| && !r.all[u].Live() {
      assert r.all[u] == s.all[u];
    }
  }

  // A start that takes effect while a stop still waits: that stop then returns, forgets the
  // new tasks, and a second start runs a second task for the same worker.
  lemma StartDuringStop(s: State)
    requires Inv(s) && !s.started && s.inProcess && s.stops != []
    ensures Enabled(DoStart(s), StopEnd(0))
    ensures var s2 := DoStopEnd(DoStart(s), 0);
      && !Recorded(s2)
      && TwoTasks(DoStart(s2), 0)
  {
    FirstStarted(s);
    EndedStayEnded(s, DoStart(s));
    hide Inv, DoStart;
    var t, s2 := |s.all|, DoStopEnd(DoStart(s), 0);
    assert s2.all[t] == Task(Worker(0), Fresh, false) && s2.tasks == map[];
    FirstStarted(s2);
    var u, s3 := |s2.all|, DoStart(s2);
    assert s3.all[t] == s2.all[t];
    assert s3.all[t].kind == s3.all[u].kind == Worker(0) && s3.all[t].Live() && s3.all[u].Live();
  }

  ghost predicate TwoTasks(s: State, w: nat)
  {
    exists t, u ::
      && 0 <= t < u < |s.all| && s.all[t].kind == s.all[u].kind == Worker(w)
      && s.all[t].Live() && s.all[u].Live()
  }

  // A start keeps the promise over every guarded continuation exactly when it is a no-op, no
  // stop is waiting, or there are no in-process workers.
  lemma StartGuardIsExact(s: State)
    requires Inv(s)
    ensures Keeps(DoStart(s)) <==> Guard(s, Start)
    ensures KeepsOneTask(DoStart(s)) <==> Guard(s, Start)
  {
    if Guard(s, Start) {
      StartInv(s);
      InvKeeps(DoStart(s));
    } else {
      FirstStarted(s);
      EndedStayEnded(s, DoStart(s));
      hide Inv, DoStart, Keeps, KeepsOneTask, Breaks;
      StopForgets(DoStart(s), |s.all|, 0);
      BreaksKeeps(DoStart(s), [StopEnd(0)]);
    }
  }

  // ----- Every guard -----

  lemma GuardIsExact(s: State, step: Step)
    requires Inv(s) && Enabled(s, step)
    ensures Keeps(Apply(s, step)) <==> Guard(s, step)
  {
    hide Inv, Keeps, KeepsOneTask;
    if Guard(s, step) {
      StepInv(s, step);
      InvKeeps(Apply(s, step));
    } else if step.Start? {
      StartGuardIsExact(s);
    } else if step.RestartBegin? {
      RespawnExact(s, step.spec);
    } else {
      RestartGuardIsExact(s, step.restart);
    }
  }

  // The same for a restart that waited for the old task.
  lemma RestartGuardIsExact(s: State, i: nat)
    requires Inv(s) && Enabled(s, RestartEnd(i))
    ensures Keeps(DoRestartEnd(s, i)) <==> MayRespawn(s, s.waiting[i].spec)
    ensures s.inProcess ==> (KeepsOneTask(DoRestartEnd(s, i)) <==> MayRespawn(s, s.waiting[i].spec))
  {
    hide Inv, Keeps, KeepsOneTask;
    ResumedInv(s, i);
    RespawnExact(Resumed(s, i), s.waiting[i].spec);
  }

  // A run is guarded exactly when none of its steps lost the promise for good.
  lemma {:induction false} GuardedRunsAreExact(s: State, steps: seq<Step>)
    requires Inv(s) && Possible(s, steps)
    ensures Guarded(s, steps) <==> AllKeep(s, steps)
    decreases |steps|
  {
    hide Inv, Keeps, Enabled, Guard, Apply;
    InvKeeps(s);
    if steps != [] {
      GuardIsExact(s, steps[0]);
      if Guard(s, steps[0]) {
        StepInv(s, steps[0]);
        GuardedRunsAreExact(Apply(s, steps[0]), steps[1..]);
      }
    }
  }

  ghost predicate AllKeep(s: State, steps: seq<Step>)
    requires Possible(s, steps)
    decreases |steps|
  {
    Keeps(s) && (steps != [] ==> AllKeep(Apply(s, steps[0]), steps[1..]))
  }

  // ----- Runs from the initial state that double a worker -----

  lemma Inited(scheduling: bool, steps: seq<Step>)
    requires Possible(Init(true, scheduling), steps) && Guarded(Init(true, scheduling), steps)
    ensures Inv(Exec(Init(true, scheduling), steps))
  {
    InitInv(true, scheduling);
    RunInv(Init(true, scheduling), steps);
  }

  lemma Starting(scheduling: bool)
    ensures var r := DoStart(Init(true, scheduling)); r.monitor.Some? && r.stops == [] && r.inProcess
  {
    SpawnFromRecords(Init(true, scheduling).(started := true, stopEvent := false), 0);
    SpawnFromInProcess(Init(true, scheduling).(started := true, stopEvent := false), 0);
    hide SpawnFrom;
  }

  lemma Nothing(s: State)
    ensures Possible(s, []) && Guarded(s, []) && Exec(s, []) == s
  {
  }

  // The first stop, as far as its wait.
  lemma StopWaits(s: State)
    requires Inv(s) && s.monitor.Some? && s.stops == []
    ensures var r := DoStopBegin(s);
      && WellTyped(r) && |r.stops| == 1 && r.monitor == s.monitor && r.inProcess == s.inProcess
      && (forall t :: 0 <= t < |r.all| && r.all[t].Live() ==> r.all[t].cancel)
      && (forall t :: t in r.stops[0] ==> t < |r.all|)
  {
    assert s.monitor.value in Gathered(s);
    StopBeginInv(s);
    var r := DoStopBegin(s);
    forall t | 0 <= t < |r.all| && r.all[t].Live() ensures r.all[t].cancel {
      CancelledDuringStop(r, t);
    }
  }

  // Start, stop, and stop again: a guarded run after which a start is not guarded.
  lemma RunToOpenWindow(scheduling: bool) returns (steps: seq<Step>)
    ensures Possible(Init(true, scheduling), steps) && Guarded(Init(true, scheduling), steps)
    ensures var s := Exec(Init(true, scheduling), steps); Inv(s) && s.inProcess && !s.started && s.stops != []
  {
    hide Inv, WellTyped, Possible, Guarded, Exec, DoStart, DoStopBegin, Init;
    var s0 := Init(true, scheduling);
    Nothing(s0);
    Initially(scheduling);
    Then(s0, [], Start);
    Starting(scheduling);
    assert [] + [Start] == [Start];
    Inited(scheduling, [Start]);
    StopWaits(DoStart(s0));
    Then(s0, [Start], StopBegin);
    var s2 := DoStopBegin(DoStart(s0));
    var drain := Drain(s2, |s2.all|);
    Chained(s0, [Start] + [StopBegin], drain);
    steps := [Start] + [StopBegin] + drain;
    Then(s0, steps, StopEnd(0));
    steps := steps + [StopEnd(0)];
    Inited(scheduling, steps);
    Then(s0, steps, StopBegin);
    SecondStopOpensWindow(Exec(s0, steps));
    steps := steps + [StopBegin];
    Inited(scheduling, steps);
  }

  lemma Initially(scheduling: bool)
    ensures Guard(Init(true, scheduling), Start)
  {
  }

  // A run from the initial state, guarded up to one start, that leaves two tasks for a worker.
  lemma StartRaceReachable(scheduling: bool) returns (steps: seq<Step>, n: nat)
    ensures Possible(Init(true, scheduling), steps) && n < |steps| && steps[n] == Start
    ensures Possible(Init(true, scheduling), steps[..n]) && Guarded(Init(true, scheduling), steps[..n])
    ensures TwoTasks(Exec(Init(true, scheduling), steps), 0)
  {
    hide Inv, Possible, Guarded, Exec, DoStart, DoStopBegin, DoStopEnd, Init, TwoTasks, Recorded;
    var s0 := Init(true, scheduling);
    var run := RunToOpenWindow(scheduling);
    n := |run|;
    StartDuringStop(Exec(s0, run));
    Then(s0, run, Start);
    Then(s0, run + [Start], StopEnd(0));
    Then(s0, run + [Start] + [StopEnd(0)], Start);
    steps := run + [Start] + [StopEnd(0)] + [Start];
    assert steps[..n] == run;
  }

  // A second call of stop on a stopped supervisor waits for the old monitor, already ended,
  // and so leaves room for a start that breaks the guard.
  lemma SecondStopOpensWindow(s: State)
    requires Inv(s) && !s.started && s.monitor.Some?
    ensures var s1 := DoStopBegin(s);
      Inv(s1) && !s1.started && s1.stops != [] && !Guard(s1, Start)
  {
    StopBeginInv(s);
    assert s.monitor.value in Gathered(s);
  }

  // The supervisor with three fresh workers and a monitor.
  function Running4(): State
  {
    Init(true, false).(
      started := true, monitor := Some(3), tasks := map[0 := 0, 1 := 1, 2 := 2],
      all := [Task(Worker(0), Fresh, false), Task(Worker(1), Fresh, false), Task(Worker(2), Fresh, false),
              Task(Monitor, Fresh, false)])
  }

  lemma StartedFour()
    ensures DoStart(Init(true, false)) == Running4()
  {
    var s := Init(true, false).(started := true, stopEvent := false);
    var s1 := Spawn(s, 0);
    var s2 := Spawn(s1, 1);
    var s3 := Spawn(s2, 2);
    assert SpawnFrom(s3, 3) == s3 && SpawnFrom(s2, 2) == s3 && SpawnFrom(s1, 1) == s3;
    assert s3.tasks == map[0 := 0, 1 := 1, 2 := 2];
  }

  // The first worker has crashed, and the monitor sleeps its backoff before it revives it.
  function Crashed(): State
  {
    Running4().(
      restarts := [1, 0, 0],
      all := [Task(Worker(0), Ended, false), Task(Worker(1), Fresh, false), Task(Worker(2), Fresh, false),
              Task(Monitor, Backoff(0, 2), false)])
  }

  const CRASH: seq<Step> :=
    [Start, WorkerRuns(0, NoJob), WorkerRuns(0, LoopFault), MonitorRuns(3, false), MonitorRuns(3, false)]

  lemma CrashSteps()
    ensures var s := Running4();
      && Enabled(s, CRASH[1]) && Apply(s, CRASH[1]) == Goto(s, 0, Top)
      && var s2 := Goto(s, 0, Top);
      && Enabled(s2, CRASH[2]) && Apply(s2, CRASH[2]) == Goto(s2, 0, Ended)
      && var s3 := Goto(s2, 0, Ended);
      && Enabled(s3, CRASH[3]) && Apply(s3, CRASH[3]) == Goto(s3, 3, Heartbeat)
  {
  }

  lemma CrashSeen()
    ensures var s := Goto(Goto(Running4(), 0, Ended), 3, Heartbeat);
      Enabled(s, CRASH[4]) && Apply(s, CRASH[4]) == Crashed()
  {
    assert Pow2(1) == 2;
    var s := Goto(Goto(Running4(), 0, Ended), 3, Heartbeat);
    assert Apply(s, CRASH[4]).all == Crashed().all;
  }

  lemma RunToCrash()
    ensures Possible(Init(true, false), CRASH) && Guarded(Init(true, false), CRASH)
    ensures Exec(Init(true, false), CRASH) == Crashed()
  {
    hide Enabled, Apply, Possible, Guarded, Exec, DoStart, Init, Running4, Crashed;
    var s0 := Init(true, false);
    Nothing(s0);
    Initially(false);
    StartedFour();
    CrashSteps();
    CrashSeen();
    StartEnabled(s0);
    var s1 := Running4();
    var s3 := Goto(Goto(s1, 0, Top), 0, Ended);
    assert s3 == Goto(s1, 0, Ended);
    Then(s0, [], CRASH[0]);
    Then(s0, [] + [CRASH[0]], CRASH[1]);
    Then(s0, [] + [CRASH[0]] + [CRASH[1]], CRASH[2]);
    Then(s0, [] + [CRASH[0]] + [CRASH[1]] + [CRASH[2]], CRASH[3]);
    Then(s0, [] + [CRASH[0]] + [CRASH[1]] + [CRASH[2]] + [CRASH[3]], CRASH[4]);
    assert CRASH == [] + [CRASH[0]] + [CRASH[1]] + [CRASH[2]] + [CRASH[3]] + [CRASH[4]];
  }

  lemma StartEnabled(s: State)
    ensures Enabled(s, Start) && Apply(s, Start) == DoStart(s)
  {
  }

  lemma RestartBegins()
    ensures var s := Crashed();
      && Enabled(s, RestartBegin(0)) && Guard(s, RestartBegin(0))
      && Apply(s, RestartBegin(0)) == s.(waiting := [Restart(0, 0)])
  {
    assert Cancelled(Crashed().all, {0}) == Crashed().all;
  }

  lemma RestartUnguarded(s: State)
    requires s == Crashed().(waiting := [Restart(0, 0)])
    ensures Enabled(s, RestartEnd(0)) && !Guard(s, RestartEnd(0))
    ensures Apply(s, RestartEnd(0)) == Respawn(Crashed(), 0)
  {
    assert Attends(s.all[3], 0);
    assert Resumed(s, 0) == Crashed();
  }

  // An operator restarts the crashed worker while the monitor sleeps, and both spawn it.
  lemma RestartDoubles()
    ensures var s := Respawn(Crashed(), 0);
      Enabled(s, MonitorRuns(3, false)) && TwoTasks(Apply(s, MonitorRuns(3, false)), 0)
  {
    hide Apply, Enabled;
    SpawnedAgain(Crashed(), 0, 3);
    var r := Apply(Respawn(Crashed(), 0), MonitorRuns(3, false));
    assert r.all[4].kind == r.all[5].kind == Worker(0) && r.all[4].Live() && r.all[5].Live();
  }

  // A run from the initial state, guarded up to the end of one restart, that leaves two.
  lemma RestartRaceReachable() returns (steps: seq<Step>, n: nat)
    ensures Possible(Init(true, false), steps) && n < |steps| && steps[n] == RestartEnd(0)
    ensures Possible(Init(true, false), steps[..n]) && Guarded(Init(true, false), steps[..n])
    ensures TwoTasks(Exec(Init(true, false), steps), 0)
  {
    hide Enabled, Guard, Apply, Possible, Guarded, Exec, Init, Crashed, TwoTasks;
    var s0 := Init(true, false);
    RunToCrash();
    RestartBegins();
    RestartUnguarded(Crashed().(waiting := [Restart(0, 0)]));
    RestartDoubles();
    var run := CRASH + [RestartBegin(0)];
    Then(s0, CRASH, RestartBegin(0));
    Then(s0, run, RestartEnd(0));
    Then(s0, run + [RestartEnd(0)], MonitorRuns(3, false));
    steps, n := run + [RestartEnd(0)] + [MonitorRuns(3, false)], |run|;
    assert steps[..n] == run;
  }
}

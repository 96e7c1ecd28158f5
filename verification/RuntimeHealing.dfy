// The monitor of the worker runtime revives every worker that is down.
module RuntimeHealing {
  import opened Outcomes
  import opened Runtime

  // ----- What is still down -----

  function OneIf(b: bool): nat
  {
    if b then 1 else 0
  }

  function DownCount(s: State): nat
  {
    OneIf(Down(s, 0)) + OneIf(Down(s, 1)) + OneIf(Down(s, 2))
  }

  ghost predicate AllUp(s: State)
  {
    forall w :: 0 <= w < SPECS ==> !Down(s, w)
  }

  lemma UpMeansNone(s: State)
    ensures AllUp(s) <==> DownCount(s) == 0
  {
  }

  // How many resumptions of the monitor are certainly enough.
  function Due(s: State, t: TaskId): nat
    requires t < |s.all|
  {
    2 * DownCount(s)
    + match s.all[t].pc
      case Fresh => 2
      case Backoff(w, _) => if Down(s, w) then 0 else 2
      case _ => 1
  }

  // ----- Calm runs -----

  ghost predicate Watching(s: State, t: TaskId)
  {
    && t < |s.all| && s.all[t].kind.Monitor? && s.all[t].Live() && !s.all[t].cancel
    && !s.stopEvent
  }

  predicate LiveIn(s: State, t: TaskId)
  {
    t < |s.all| && s.all[t].Live()
  }

  // The monitor t meets no fault, no worker ends, and nobody stops the supervisor. Anything may
  // be started or restarted, and another monitor may run as well.
  ghost predicate Calm(s: State, t: TaskId, step: Step)
  {
    && Enabled(s, step)
    && match step
       case MonitorRuns(u, fault) => u == t ==> !fault
       case WorkerRuns(u, c) => LiveIn(ResumeWorker(s, u, c), u)
       case StopBegin => false
       case StopEnd(_) => false
       case _ => true
  }

  ghost predicate CalmRun(s: State, t: TaskId, steps: seq<Step>)
    decreases |steps|
  {
    steps == [] || (Calm(s, t, steps[0]) && CalmRun(Apply(s, steps[0]), t, steps[1..]))
  }

  predicate Wakes(step: Step, t: TaskId)
  {
    step.MonitorRuns? && step.task == t
  }

  function Wakings(steps: seq<Step>, t: TaskId): nat
  {
    if steps == [] then 0 else OneIf(Wakes(steps[0], t)) + Wakings(steps[1..], t)
  }

  lemma {:induction false} CalmPossible(s: State, t: TaskId, steps: seq<Step>)
    requires CalmRun(s, t, steps)
    ensures Possible(s, steps)
    decreases |steps|
  {
    hide Apply, Enabled;
    if steps != [] {
      CalmPossible(Apply(s, steps[0]), t, steps[1..]);
    }
  }

  // ----- One step -----

  // Task u has moved on, and nothing else but the log has changed.
  ghost predicate MovedOnly(s: State, r: State, u: TaskId)
    requires u < |s.all|
  {
    |r.all| == |s.all| && r == s.(all := s.all[u := s.all[u].(pc := r.all[u].pc)], log := r.log)
  }

  lemma WorkerMoves(s: State, u: TaskId, c: Choice)
    requires Enabled(s, WorkerRuns(u, c))
    ensures MovedOnly(s, ResumeWorker(s, u, c), u)
  {
    hide ResumeWorker, MovedOnly, WorkerMay;
    if s.all[u].pc.Running? {
      SettlerMoves(s, u, c);
    } else {
      IdlerMoves(s, u, c);
    }
  }

  lemma SettlerMoves(s: State, u: TaskId, c: Choice)
    requires u < |s.all| && s.all[u].Live() && WorkerMay(s.all[u].pc, c) && s.all[u].pc.Running?
    ensures MovedOnly(s, ResumeWorker(s, u, c), u)
  {
    hide RetryDelay, Pow2;
  }

  lemma IdlerMoves(s: State, u: TaskId, c: Choice)
    requires u < |s.all| && s.all[u].Live() && WorkerMay(s.all[u].pc, c) && !s.all[u].pc.Running?
    ensures MovedOnly(s, ResumeWorker(s, u, c), u)
  {
    hide RetryDelay, Pow2;
  }

  // Monitor t stays as it is, and no worker goes down.
  ghost predicate NoWorse(s: State, r: State, t: TaskId)
    requires t < |s.all|
  {
    Watching(r, t) && r.all[t] == s.all[t] && forall w :: Down(r, w) ==> Down(s, w)
  }

  lemma MoveNoWorse(s: State, r: State, t: TaskId, u: TaskId)
    requires WellTyped(s) && Watching(s, t) && u < |s.all| && u != t && MovedOnly(s, r, u)
    requires s.all[u].kind.Worker? ==> s.all[u].Live() && r.all[u].Live()
    ensures NoWorse(s, r, t)
  {
  }

  lemma SpawnNoWorse(s: State, t: TaskId, w: nat)
    requires WellTyped(s) && Watching(s, t)
    ensures NoWorse(s, Spawn(s, w), t)
  {
  }

  lemma NoWorseTransitive(s: State, r: State, q: State, t: TaskId)
    requires t < |s.all| && NoWorse(s, r, t) && NoWorse(r, q, t)
    ensures NoWorse(s, q, t)
  {
    hide Down;
  }

  lemma {:induction false} SpawnFromNoWorse(s: State, t: TaskId, w: nat)
    requires WellTyped(s) && Watching(s, t)
    ensures NoWorse(s, SpawnFrom(s, w), t) && WellTyped(SpawnFrom(s, w))
    decreases SPECS - w
  {
    hide WellTyped, Down;
    if w < SPECS {
      SpawnNoWorse(s, t, w);
      SpawnTyped(s, w);
      SpawnFromNoWorse(Spawn(s, w), t, w + 1);
      NoWorseTransitive(s, Spawn(s, w), SpawnFrom(s, w), t);
    }
  }

  lemma WatcherNoWorse(s: State, t: TaskId)
    requires WellTyped(s) && Watching(s, t)
    ensures NoWorse(s, StartMonitor(s), t) && NoWorse(s, StartScheduler(s), t)
  {
  }

  lemma StartNoWorse(s: State, t: TaskId)
    requires WellTyped(s) && Watching(s, t)
    ensures NoWorse(s, DoStart(s), t)
  {
    var s1 := s.(started := true, stopEvent := false);
    FlagsTyped(s, true, false);
    assert NoWorse(s, s1, t) && NoWorse(s, s, t);
    hide WellTyped, Down, NoWorse, SpawnFrom;
    if !s.started && s.inProcess {
      var s2 := SpawnFrom(s1, 0);
      SpawnFromNoWorse(s1, t, 0);
      SpawnFromTyped(s1, 0);
      NoWorseTransitive(s, s1, s2, t);
      WatchedStill(s1, s2, t);
      WatcherNoWorse(s2, t);
      NoWorseTransitive(s, s2, StartMonitor(s2), t);
      if s.scheduling {
        WatchersTyped(s2);
        WatchedStill(s2, StartMonitor(s2), t);
        WatcherNoWorse(StartMonitor(s2), t);
        NoWorseTransitive(s, StartMonitor(s2), StartScheduler(StartMonitor(s2)), t);
      }
    }
  }

  lemma WatchedStill(s: State, r: State, t: TaskId)
    requires t < |s.all| && NoWorse(s, r, t)
    ensures Watching(r, t)
  {
  }

  lemma RespawnNoWorse(s: State, t: TaskId, w: nat)
    requires WellTyped(s) && Watching(s, t) && w < SPECS
    ensures NoWorse(s, Respawn(s, w), t)
  {
  }

  lemma RestartNoWorse(s: State, t: TaskId, w: nat)
    requires WellTyped(s) && Watching(s, t) && w < SPECS
    ensures NoWorse(s, DoRestartBegin(s, w), t)
  {
    if w in s.tasks {
      assert s.tasks[w] != t;
    } else {
      RespawnNoWorse(s, t, w);
    }
  }

  lemma AbandonedNoWorse(s: State, t: TaskId, i: nat)
    requires Watching(s, t)
    ensures i < |s.stops| ==> NoWorse(s, s.(stops := s.stops[..i] + s.stops[i + 1..]), t)
    ensures i < |s.waiting| ==> NoWorse(s, Resumed(s, i), t)
  {
  }

  // The pass of another monitor moves that monitor only.
  lemma {:induction false} ScanNoWorse(s: State, t: TaskId, u: TaskId, w: nat, fault: bool)
    requires WellTyped(s) && Watching(s, t) && u < |s.all| && u != t && s.all[u].kind.Monitor?
    ensures NoWorse(s, Scan(s, u, w, fault), t)
    decreases SPECS - w
  {
    if w < SPECS && !Down(s, w) {
      ScanNoWorse(s, t, u, w + 1, fault);
    }
  }

  lemma OtherMonitorNoWorse(s: State, t: TaskId, u: TaskId, fault: bool)
    requires WellTyped(s) && Watching(s, t) && Enabled(s, MonitorRuns(u, fault)) && u != t
    ensures NoWorse(s, ResumeMonitor(s, u, fault), t)
  {
    hide Down, WellTyped, Scan;
    var pc := s.all[u].pc;
    if s.all[u].cancel || pc.Fresh? {
      MoveNoWorse(s, ResumeMonitor(s, u, fault), t, u);
    } else if pc.Backoff? {
      var s1 := Goto(s, u, Heartbeat);
      MoveNoWorse(s, s1, t, u);
      GotoTyped(s, u, Heartbeat);
      SpawnNoWorse(s1, t, pc.spec);
      SpawnTyped(s1, pc.spec);
      var s2 := Spawn(s1, pc.spec);
      NoWorseTransitive(s, s1, s2, t);
      ScanNoWorse(s2, t, u, pc.spec + 1, fault);
      NoWorseTransitive(s, s2, Scan(s2, u, pc.spec + 1, fault), t);
    } else {
      ScanNoWorse(s, t, u, 0, fault);
    }
  }

  lemma OthersCalm(s: State, t: TaskId, step: Step)
    requires WellTyped(s) && Watching(s, t) && Calm(s, t, step) && !Wakes(step, t)
    ensures NoWorse(s, Apply(s, step), t)
  {
    hide WellTyped, WorkerMay, ResumeWorker, ResumeMonitor, DoStart, DoRestartBegin, Down, NoWorse;
    if step.WorkerRuns? {
      WorkerMoves(s, step.task, step.choice);
      MoveNoWorse(s, Apply(s, step), t, step.task);
    } else if step.SchedulerRuns? {
      MoveNoWorse(s, Apply(s, step), t, step.task);
    } else if step.MonitorRuns? {
      OtherMonitorNoWorse(s, t, step.task, step.fault);
    } else if step.Start? {
      StartNoWorse(s, t);
    } else if step.RestartBegin? {
      RestartNoWorse(s, t, step.spec);
    } else if step.StopAbandoned? {
      AbandonedNoWorse(s, t, step.stop);
    } else {
      RestartEndNoWorse(s, t, step);
    }
  }

  lemma RestartEndNoWorse(s: State, t: TaskId, step: Step)
    requires WellTyped(s) && Watching(s, t) && Enabled(s, step) && (step.RestartEnd? || step.RestartAbandoned?)
    ensures NoWorse(s, Apply(s, step), t)
  {
    hide WellTyped, Down, NoWorse;
    var i := step.restart;
    AbandonedNoWorse(s, t, i);
    if step.RestartEnd? {
      var r := Resumed(s, i);
      ResumedTyped(s, i);
      WatchedStill(s, r, t);
      RespawnNoWorse(r, t, s.waiting[i].spec);
      NoWorseTransitive(s, r, Respawn(r, s.waiting[i].spec), t);
    }
  }

  lemma NoWorseDue(s: State, r: State, t: TaskId)
    requires Watching(s, t) && WellTyped(s) && NoWorse(s, r, t)
    ensures AllUp(s) ==> AllUp(r)
    ensures Due(r, t) <= Due(s, t)
  {
    assert Fits(Monitor, s.all[t].pc);
    hide WellTyped, Down;
  }

  lemma {:induction false} Scanned(s: State, t: TaskId, w: nat)
    requires WellTyped(s) && Watching(s, t)
    ensures var r := Scan(s, t, w, false);
      && Watching(r, t) && (forall v :: Down(r, v) == Down(s, v))
      && if exists v :: w <= v < SPECS && Down(s, v) then r.all[t].pc.Backoff? && Down(s, r.all[t].pc.spec)
         else r.all[t].pc == Heartbeat
    decreases SPECS - w
  {
    if w < SPECS && !Down(s, w) {
      Scanned(s, t, w + 1);
      assert (exists v :: w <= v < SPECS && Down(s, v)) <==> (exists v :: w + 1 <= v < SPECS && Down(s, v));
    }
  }

  lemma Revived(s: State, t: TaskId, w: nat)
    requires WellTyped(s) && Watching(s, t) && w < SPECS
    ensures var r := Spawn(Goto(s, t, Heartbeat), w);
      && WellTyped(r) && Watching(r, t) && !Down(r, w) && forall v :: v != w ==> Down(r, v) == Down(s, v)
  {
  }

  lemma Awakened(s: State, t: TaskId)
    requires WellTyped(s) && Watching(s, t)
    ensures var r := ResumeMonitor(s, t, false);
      && Watching(r, t) && (AllUp(s) ==> AllUp(r)) && (!AllUp(s) ==> Due(r, t) < Due(s, t))
  {
    assert Fits(Monitor, s.all[t].pc);
    hide WellTyped, Down, ResumeMonitor;
    var pc := s.all[t].pc;
    if pc.Backoff? {
      BackoffWakes(s, t);
    } else if pc.Fresh? {
      FreshWakes(s, t);
    } else {
      HeartbeatWakes(s, t);
    }
  }

  lemma BackoffWakes(s: State, t: TaskId)
    requires WellTyped(s) && Watching(s, t) && s.all[t].pc.Backoff? && s.all[t].pc.spec < SPECS
    ensures var r := ResumeMonitor(s, t, false);
      Watching(r, t) && (AllUp(s) ==> AllUp(r)) && Due(r, t) < Due(s, t)
  {
    hide WellTyped, Down, Scan;
    var w := s.all[t].pc.spec;
    Revived(s, t, w);
    Scanned(Spawn(Goto(s, t, Heartbeat), w), t, w + 1);
  }

  lemma HeartbeatWakes(s: State, t: TaskId)
    requires WellTyped(s) && Watching(s, t) && s.all[t].pc == Heartbeat
    ensures var r := ResumeMonitor(s, t, false);
      && Watching(r, t) && (forall v :: Down(r, v) == Down(s, v)) && (!AllUp(s) ==> Due(r, t) < Due(s, t))
  {
    hide WellTyped, Down, Scan;
    Scanned(s, t, 0);
  }

  lemma FreshWakes(s: State, t: TaskId)
    requires WellTyped(s) && Watching(s, t) && s.all[t].pc.Fresh?
    ensures var r := ResumeMonitor(s, t, false);
      Watching(r, t) && r.all[t].pc == Heartbeat && forall v :: Down(r, v) == Down(s, v)
  {
  }

  // ----- Healing -----

  lemma {:induction false} HealedInTime(s: State, t: TaskId, steps: seq<Step>)
    requires WellTyped(s) && Watching(s, t) && CalmRun(s, t, steps) && Possible(s, steps)
    requires AllUp(s) || Wakings(steps, t) >= Due(s, t)
    ensures AllUp(Exec(s, steps)) && Watching(Exec(s, steps), t)
    decreases |steps|
  {
    hide WellTyped, Enabled, Apply, Down;
    UpMeansNone(s);
    if steps != [] {
      CalmStep(s, t, steps[0]);
      HealedInTime(Apply(s, steps[0]), t, steps[1..]);
    }
  }

  lemma CalmStep(s: State, t: TaskId, step: Step)
    requires WellTyped(s) && Watching(s, t) && Calm(s, t, step)
    ensures var r := Apply(s, step);
      && WellTyped(r) && Watching(r, t) && (AllUp(s) ==> AllUp(r))
      && (!AllUp(s) ==> Due(r, t) + OneIf(Wakes(step, t)) <= Due(s, t))
  {
    hide WellTyped, Down, ResumeWorker, ResumeMonitor, DoStart, DoStopBegin, DoRestartBegin, AllUp, Due, WorkerMay;
    StepTyped(s, step);
    if Wakes(step, t) {
      Awakened(s, t);
    } else {
      OthersCalm(s, t, step);
      NoWorseDue(s, Apply(s, step), t);
    }
  }

  // From any state of any run, guarded or not, once a live monitor has been resumed eight times
  // without a fault, a stop or the end of a worker in between, every worker has a live task.
  lemma MonitorHeals(inProcess: bool, scheduling: bool, before: seq<Step>, t: TaskId, steps: seq<Step>)
    requires Possible(Init(inProcess, scheduling), before)
    requires var s := Exec(Init(inProcess, scheduling), before);
      Watching(s, t) && CalmRun(s, t, steps) && Wakings(steps, t) >= 8
    ensures var s := Exec(Init(inProcess, scheduling), before);
      Possible(s, steps) && AllUp(Exec(s, steps))
  {
    var s := Exec(Init(inProcess, scheduling), before);
    RunTyped(inProcess, scheduling, before);
    CalmPossible(s, t, steps);
    hide Exec, Possible, CalmRun, WellTyped;
    HealedInTime(s, t, steps);
  }

  lemma RunTyped(inProcess: bool, scheduling: bool, steps: seq<Step>)
    requires Possible(Init(inProcess, scheduling), steps)
    ensures WellTyped(Exec(Init(inProcess, scheduling), steps))
  {
    InitInv(inProcess, scheduling);
    RunSettled(Init(inProcess, scheduling), steps);
  }
}

// The worker runtime of apps/ross-runtime-portal/app/runtime: the supervisor's coroutines and
// the worker loop, as steps of one event loop. Control passes between coroutines only where
// one of them awaits, so everything between two awaits is one step.
module Runtime {
  import opened Outcomes

  // ----- Tasks -----

  type TaskId = nat

  // DEFAULT_SPECS by position.
  const SPECS: nat := 3

  datatype Kind = Worker(spec: nat) | Monitor | Scheduler

  // Where a coroutine is suspended. Top is the head of the worker loop, which is no await.
  datatype Pc =
    | Fresh
    | Top
    | Idle
    | Running(job: nat, attempts: int)
    | Heartbeat
    | Backoff(spec: nat, seconds: nat)
    | Tick
    | Ended

  // cancel: a cancellation waits to be raised at the next resumption of an await.
  datatype Task = Task(kind: Kind, pc: Pc, cancel: bool)
  {
    predicate Live()
    {
      pc != Ended
    }
  }

  datatype Event =
    | Claimed(task: TaskId, job: nat)
    | Completed(task: TaskId, job: nat)
    | Failed(task: TaskId, job: nat, delay: nat)
    | Lost(task: TaskId, job: nat)

  // A restart_worker suspended until the task it cancelled has ended.
  datatype Restart = Restart(spec: nat, task: TaskId)

  datatype State = State(
    inProcess: bool,
    scheduling: bool,
    started: bool,
    stopEvent: bool,
    tasks: map<nat, TaskId>,
    monitor: Option<TaskId>,
    scheduler: Option<TaskId>,
    restarts: seq<nat>,
    all: seq<Task>,
    stops: seq<set<TaskId>>,
    waiting: seq<Restart>,
    log: seq<Event>)

  function Init(inProcess: bool, scheduling: bool): State
  {
    State(inProcess, scheduling, false, false, map[], None, None, seq(SPECS, _ => 0), [], [], [], [])
  }

  // ----- Delays -----

  function Pow2(n: nat): (p: nat)
    ensures p > 0
  {
    if n == 0 then 1 else 2 * Pow2(n - 1)
  }

  function RetryDelay(attempts: int): nat
  {
    var p := Pow2(if attempts < 1 then 1 else attempts);
    if p < 60 then p else 60
  }

  function BackoffDelay(restarts: nat): nat
  {
    var p := Pow2(if restarts < 5 then restarts else 5);
    if p < 30 then p else 30
  }

  // ----- start and stop -----

  function Create(s: State, kind: Kind): State
  {
    s.(all := s.all + [Task(kind, Fresh, false)])
  }

  function Spawn(s: State, w: nat): State
  {
    Create(s, Worker(w)).(tasks := s.tasks[w := |s.all|])
  }

  function SpawnFrom(s: State, w: nat): State
    decreases SPECS - w
  {
    if w >= SPECS then s else SpawnFrom(Spawn(s, w), w + 1)
  }

  function StartMonitor(s: State): State
  {
    Create(s, Monitor).(monitor := Some(|s.all|))
  }

  function StartScheduler(s: State): State
  {
    Create(s, Scheduler).(scheduler := Some(|s.all|))
  }

  function DoStart(s: State): State
  {
    if s.started then s
    else
      var s1 := s.(started := true, stopEvent := false);
      if !s.inProcess then s1
      else
        var s2 := StartMonitor(SpawnFrom(s1, 0));
        if s.scheduling then StartScheduler(s2) else s2
  }

  function Just(o: Option<TaskId>): set<TaskId>
  {
    if o.Some? then {o.value} else {}
  }

  // The tasks a call of stop cancels and then waits for.
  function Gathered(s: State): set<TaskId>
  {
    s.tasks.Values + Just(s.monitor) + Just(s.scheduler)
  }

  // Cancelling a finished task does nothing.
  function Cancelled(all: seq<Task>, ids: set<TaskId>): (r: seq<Task>)
    ensures |r| == |all|
  {
    seq(|all|, i requires 0 <= i < |all| => if i in ids && all[i].Live() then all[i].(cancel := true) else all[i])
  }

  function Stopped(s: State): State
  {
    s.(tasks := map[], started := false)
  }

  // Up to the await of gather; with nothing to gather, stop completes at once.
  function DoStopBegin(s: State): State
  {
    var ids := Gathered(s);
    var s1 := s.(stopEvent := true, all := Cancelled(s.all, ids));
    if ids == {} then Stopped(s1) else s1.(stops := s.stops + [ids])
  }

  function DoStopEnd(s: State, i: nat): State
    requires i < |s.stops|
  {
    Stopped(s.(stops := s.stops[..i] + s.stops[i + 1..]))
  }

  // The last part of restart_worker, which spawns without looking again.
  function Respawn(s: State, w: nat): State
    requires |s.restarts| == SPECS && w < SPECS
  {
    Spawn(s.(restarts := s.restarts[w := s.restarts[w] + 1]), w)
  }

  function DoRestartBegin(s: State, w: nat): State
    requires |s.restarts| == SPECS && w < SPECS
  {
    if w in s.tasks then
      s.(all := Cancelled(s.all, {s.tasks[w]}), waiting := s.waiting + [Restart(w, s.tasks[w])])
    else
      Respawn(s, w)
  }

  function Resumed(s: State, i: nat): State
    requires i < |s.waiting|
  {
    s.(waiting := s.waiting[..i] + s.waiting[i + 1..])
  }

  function DoRestartEnd(s: State, i: nat): State
    requires i < |s.waiting| && |s.restarts| == SPECS && s.waiting[i].spec < SPECS
  {
    Respawn(Resumed(s, i), s.waiting[i].spec)
  }

  // ----- Resuming a task -----

  function Goto(s: State, t: TaskId, pc: Pc): State
    requires t < |s.all|
  {
    s.(all := s.all[t := s.all[t].(pc := pc)])
  }

  function Log(s: State, e: Event): State
  {
    s.(log := s.log + [e])
  }

  // What the store and the handler do at one resumption of a worker. A store call raises in
  // the choices ending in Fault.
  datatype Choice =
    | NoJob
    | Job(job: nat, attempts: int)
    | LoopFault
    | HandlerDone
    | HandlerRaised
    | SettleFault

  predicate WorkerMay(pc: Pc, c: Choice)
  {
    match pc
    case Top => c.NoJob? || c.Job? || c.LoopFault?
    case Running(_, _) => c.HandlerDone? || c.HandlerRaised? || c.SettleFault?
    case _ => true
  }

  // WorkerRunner.run_forever. HandlerRaised covers a missing handler and a failing
  // complete_job; SettleFault covers every raise after which the claimed job stays unsettled.
  function ResumeWorker(s: State, t: TaskId, c: Choice): State
    requires t < |s.all| && s.all[t].Live() && WorkerMay(s.all[t].pc, c)
  {
    var task := s.all[t];
    match task.pc
    case Running(job, attempts) =>
      if c.SettleFault? then Goto(Log(s, Lost(t, job)), t, Ended)
      else if task.cancel then Goto(Log(s, Failed(t, job, 2)), t, Ended)
      else if c.HandlerDone? then Goto(Log(s, Completed(t, job)), t, Top)
      else Goto(Log(s, Failed(t, job, RetryDelay(attempts))), t, Top)
    case Top =>
      if s.stopEvent || c.LoopFault? then Goto(s, t, Ended)
      else if c.Job? then Goto(Log(s, Claimed(t, c.job)), t, Running(c.job, c.attempts))
      else Goto(s, t, Idle)
    case _ => Goto(s, t, if task.cancel then Ended else Top)
  }

  // No live task is recorded for the worker.
  predicate Down(s: State, w: nat)
  {
    w !in s.tasks || s.tasks[w] >= |s.all| || !s.all[s.tasks[w]].Live()
  }

  // The monitor's pass over the workers from w on, up to its next await.
  function Scan(s: State, t: TaskId, w: nat, fault: bool): State
    requires t < |s.all| && |s.restarts| == SPECS
    decreases SPECS - w
  {
    if w >= SPECS then Goto(s, t, if s.stopEvent then Ended else Heartbeat)
    else if Down(s, w) then
      var n := s.restarts[w] + 1;
      Goto(s.(restarts := s.restarts[w := n]), t, if fault then Ended else Backoff(w, BackoffDelay(n)))
    else Scan(s, t, w + 1, fault)
  }

  // RuntimeSupervisor._monitor.
  function ResumeMonitor(s: State, t: TaskId, fault: bool): State
    requires t < |s.all| && |s.restarts| == SPECS
  {
    var task := s.all[t];
    if task.cancel then Goto(s, t, Ended)
    else
      match task.pc
      case Fresh => Goto(s, t, if s.stopEvent then Ended else Heartbeat)
      case Backoff(w, _) => Scan(Spawn(Goto(s, t, Heartbeat), w), t, w + 1, fault)
      case _ => Scan(s, t, 0, fault)
  }

  // RuntimeSupervisor._scheduler: its queue of due jobs is left out.
  function ResumeScheduler(s: State, t: TaskId, fault: bool): State
    requires t < |s.all|
  {
    Goto(s, t, if s.all[t].cancel || s.stopEvent || fault then Ended else Tick)
  }

  // ----- Steps -----

  datatype Step =
    | Start
    | StopBegin
    | StopEnd(stop: nat)
    | StopAbandoned(stop: nat)
    | RestartBegin(spec: nat)
    | RestartEnd(restart: nat)
    | RestartAbandoned(restart: nat)
    | WorkerRuns(task: TaskId, choice: Choice)
    | MonitorRuns(task: TaskId, fault: bool)
    | SchedulerRuns(task: TaskId, fault: bool)

  ghost predicate Enabled(s: State, step: Step)
  {
    match step
    case Start => true
    case StopBegin => true
    case StopEnd(i) => i < |s.stops| && forall t :: t in s.stops[i] ==> t < |s.all| && !s.all[t].Live()
    case StopAbandoned(i) => i < |s.stops|
    case RestartBegin(w) => w < SPECS && |s.restarts| == SPECS
    case RestartEnd(i) =>
      && i < |s.waiting| && s.waiting[i].spec < SPECS && |s.restarts| == SPECS
      && s.waiting[i].task < |s.all| && !s.all[s.waiting[i].task].Live()
    case RestartAbandoned(i) => i < |s.waiting|
    case WorkerRuns(t, c) => t < |s.all| && s.all[t].kind.Worker? && s.all[t].Live() && WorkerMay(s.all[t].pc, c)
    case MonitorRuns(t, _) => t < |s.all| && s.all[t].kind.Monitor? && s.all[t].Live() && |s.restarts| == SPECS
    case SchedulerRuns(t, _) => t < |s.all| && s.all[t].kind.Scheduler? && s.all[t].Live()
  }

  function Apply(s: State, step: Step): State
    requires Enabled(s, step)
  {
    match step
    case Start => DoStart(s)
    case StopBegin => DoStopBegin(s)
    case StopEnd(i) => DoStopEnd(s, i)
    case StopAbandoned(i) => s.(stops := s.stops[..i] + s.stops[i + 1..])
    case RestartBegin(w) => DoRestartBegin(s, w)
    case RestartEnd(i) => DoRestartEnd(s, i)
    case RestartAbandoned(i) => Resumed(s, i)
    case WorkerRuns(t, c) => ResumeWorker(s, t, c)
    case MonitorRuns(t, fault) => ResumeMonitor(s, t, fault)
    case SchedulerRuns(t, fault) => ResumeScheduler(s, t, fault)
  }

  // ----- What is promised -----

  // Every live worker task is the one recorded for its worker.
  ghost predicate Recorded(s: State)
  {
    forall t :: 0 <= t < |s.all| && s.all[t].kind.Worker? && s.all[t].Live() ==>
      s.all[t].kind.spec in s.tasks && s.tasks[s.all[t].kind.spec] == t
  }

  ghost predicate NoneLive(s: State)
  {
    forall t :: 0 <= t < |s.all| ==> !s.all[t].Live()
  }

  lemma RecordedMeansOne(s: State, t: TaskId, u: TaskId)
    requires Recorded(s) && t < |s.all| && u < |s.all|
    requires s.all[t].kind.Worker? && s.all[u].kind == s.all[t].kind && s.all[t].Live() && s.all[u].Live()
    ensures t == u
  {
  }

  // ----- The invariant -----

  predicate Fits(kind: Kind, pc: Pc)
  {
    match kind
    case Worker(_) => pc in {Fresh, Top, Idle, Ended} || pc.Running?
    case Monitor => pc in {Fresh, Heartbeat, Ended} || (pc.Backoff? && pc.spec < SPECS)
    case Scheduler => pc in {Fresh, Tick, Ended}
  }

  ghost predicate WellTyped(s: State)
  {
    && |s.restarts| == SPECS
    && (forall t :: 0 <= t < |s.all| ==> Fits(s.all[t].kind, s.all[t].pc))
    && (forall w :: w in s.tasks ==> s.tasks[w] < |s.all| && s.all[s.tasks[w]].kind == Worker(w))
    && (s.monitor.Some? ==> s.inProcess && s.monitor.value < |s.all| && s.all[s.monitor.value].kind == Monitor)
    && (s.scheduler.Some? ==> s.scheduler.value < |s.all| && s.all[s.scheduler.value].kind == Scheduler)
    && (forall i, t :: 0 <= i < |s.stops| && t in s.stops[i] ==> t < |s.all|)
    && (forall i :: 0 <= i < |s.waiting| ==> s.waiting[i].spec < SPECS && s.waiting[i].task < |s.all|)
  }

  // The one live monitor sleeps its bounded backoff, and unless it has been cancelled only for
  // a worker that is down.
  ghost predicate MonitorOk(s: State, t: TaskId)
    requires t < |s.all|
  {
    s.all[t].kind.Monitor? && s.all[t].Live() ==>
      && s.monitor == Some(t)
      && (s.all[t].pc.Backoff? ==> s.all[t].pc.seconds <= 30)
      && (s.all[t].pc.Backoff? && !s.all[t].cancel ==> Down(s, s.all[t].pc.spec))
  }

  ghost predicate Inv(s: State)
  {
    && WellTyped(s)
    && Recorded(s)
    && (forall t :: 0 <= t < |s.all| ==> MonitorOk(s, t))
    && (forall t :: 0 <= t < |s.all| && s.all[t].kind.Scheduler? && s.all[t].Live() ==> s.scheduler == Some(t))
    && (!s.started ==> NoneLive(s))
    && StopsReach(s)
  }

  // Whatever is live has been cancelled by every stop that still waits, and is waited for.
  ghost predicate StopsReach(s: State)
  {
    forall i :: 0 <= i < |s.stops| ==> Reached(s.all, s.stops[i])
  }

  ghost predicate Reached(all: seq<Task>, ids: set<TaskId>)
  {
    forall t :: 0 <= t < |all| && all[t].Live() ==> t in ids && all[t].cancel
  }

  // No monitor is about to revive worker w.
  ghost predicate Unattended(s: State, w: nat)
  {
    forall t :: 0 <= t < |s.all| ==> !Attends(s.all[t], w)
  }

  // A cancelled monitor ends when its backoff is over.
  predicate Attends(task: Task, w: nat)
  {
    task.kind.Monitor? && !task.cancel && task.pc.Backoff? && task.pc.spec == w
  }

  // A restart may spawn: the supervisor runs, nobody is stopping it, the worker is down, and
  // the monitor is not about to revive it as well.
  ghost predicate MayRespawn(s: State, w: nat)
  {
    s.started && s.stops == [] && Down(s, w) && Unattended(s, w)
  }

  // What the callers of start and restart_worker have to see to.
  ghost predicate Guard(s: State, step: Step)
  {
    match step
    case Start => s.started || s.stops == [] || !s.inProcess
    case RestartBegin(w) => w in s.tasks || MayRespawn(s, w)
    case RestartEnd(i) => i < |s.waiting| && MayRespawn(s, s.waiting[i].spec)
    case _ => true
  }

  lemma InitInv(inProcess: bool, scheduling: bool)
    ensures Inv(Init(inProcess, scheduling))
  {
  }

  lemma SpawnInv(s: State, w: nat)
    requires Inv(s) && s.started && s.stops == [] && Down(s, w) && Unattended(s, w)
    ensures Inv(Spawn(s, w))
  {
    var s' := Spawn(s, w);
    assert forall t :: 0 <= t < |s.all| ==> s'.all[t] == s.all[t];
    forall t | 0 <= t < |s'.all| ensures MonitorOk(s', t) {
      if t < |s.all| {
        assert MonitorOk(s, t);
      }
    }
  }

  lemma DownAfterSpawn(s: State, w: nat, v: nat)
    requires Inv(s) && Down(s, v) && v != w
    ensures Down(Spawn(s, w), v)
  {
  }

  lemma {:induction false} SpawnFromInv(s: State, w: nat)
    requires Inv(s) && s.started && s.stops == []
    requires forall v :: w <= v < SPECS ==> Down(s, v)
    requires forall t :: 0 <= t < |s.all| ==> !s.all[t].kind.Monitor? || !s.all[t].Live()
    requires forall t :: 0 <= t < |s.all| ==> !s.all[t].kind.Scheduler? || !s.all[t].Live()
    ensures var r := SpawnFrom(s, w);
      && Inv(r) && r.started && r.stops == [] && r.inProcess == s.inProcess
      && r.monitor == s.monitor && r.scheduler == s.scheduler
      && forall t :: 0 <= t < |r.all| ==> r.all[t].kind.Worker? || !r.all[t].Live()
    decreases SPECS - w
  {
    hide Inv, Down;
    if w < SPECS {
      SpawnInv(s, w);
      forall v | w < v < SPECS ensures Down(Spawn(s, w), v) {
        DownAfterSpawn(s, w, v);
      }
      SpawnFromInv(Spawn(s, w), w + 1);
    }
  }

  lemma StartedInv(s: State)
    requires Inv(s) && !s.started
    ensures Inv(s.(started := true, stopEvent := false))
  {
    var s' := s.(started := true, stopEvent := false);
    forall t | 0 <= t < |s'.all| ensures MonitorOk(s', t) {
      assert MonitorOk(s, t);
    }
    assert NoneLive(s);
  }

  lemma StartMonitorInv(s: State)
    requires Inv(s) && s.started && s.stops == [] && s.inProcess
    requires forall t :: 0 <= t < |s.all| ==> !s.all[t].kind.Monitor? || !s.all[t].Live()
    ensures Inv(StartMonitor(s))
  {
  }

  lemma StartSchedulerInv(s: State)
    requires Inv(s) && s.started && s.stops == []
    requires forall t :: 0 <= t < |s.all| ==> !s.all[t].kind.Scheduler? || !s.all[t].Live()
    ensures Inv(StartScheduler(s))
  {
    var s' := StartScheduler(s);
    forall t | 0 <= t < |s'.all| ensures MonitorOk(s', t) {
      if t < |s.all| {
        assert MonitorOk(s, t);
      }
    }
  }

  lemma StartInv(s: State)
    requires Inv(s) && Guard(s, Start)
    ensures Inv(DoStart(s))
  {
    if !s.started {
      assert NoneLive(s);
      StartedInv(s);
      hide Inv;
      var s1 := s.(started := true, stopEvent := false);
      if s.inProcess {
        SpawnFromInv(s1, 0);
        var s2 := SpawnFrom(s1, 0);
        StartMonitorInv(s2);
        if s.scheduling {
          StartSchedulerInv(StartMonitor(s2));
        }
      }
    }
  }

  // Everything live is recorded, so stop reaches all of it.
  lemma GatheredAll(s: State, t: TaskId)
    requires Inv(s) && t < |s.all| && s.all[t].Live()
    ensures t in Gathered(s)
  {
    assert MonitorOk(s, t);
  }

  lemma StopBeginInv(s: State)
    requires Inv(s)
    ensures Inv(DoStopBegin(s))
  {
    forall t | 0 <= t < |s.all| && s.all[t].Live() ensures t in Gathered(s) {
      GatheredAll(s, t);
    }
    GatheredInRange(s);
    hide Gathered;
    CancelledInv(s, Gathered(s));
    var s1 := s.(stopEvent := true, all := Cancelled(s.all, Gathered(s)));
    if Gathered(s) != {} {
      StopAddedInv(s1, Gathered(s));
    }
  }

  lemma CancelledInv(s: State, ids: set<TaskId>)
    requires Inv(s) && forall t :: t in ids ==> t < |s.all|
    requires forall t :: 0 <= t < |s.all| && s.all[t].Live() ==> t in ids
    ensures Inv(s.(stopEvent := true, all := Cancelled(s.all, ids)))
    ensures forall t :: 0 <= t < |s.all| && Cancelled(s.all, ids)[t].Live() ==>
      t in ids && Cancelled(s.all, ids)[t].cancel
  {
    var s' := s.(stopEvent := true, all := Cancelled(s.all, ids));
    forall t | 0 <= t < |s'.all| ensures MonitorOk(s', t) {
      assert MonitorOk(s, t);
    }
    assert StopsReach(s');
  }

  lemma StopAddedInv(s: State, ids: set<TaskId>)
    requires Inv(s) && forall t :: t in ids ==> t < |s.all|
    requires forall t :: 0 <= t < |s.all| && s.all[t].Live() ==> t in ids && s.all[t].cancel
    ensures Inv(s.(stops := s.stops + [ids]))
  {
    var s' := s.(stops := s.stops + [ids]);
    forall t | 0 <= t < |s'.all| ensures MonitorOk(s', t) {
      assert MonitorOk(s, t);
    }
    assert StopsReach(s');
  }

  lemma GatheredInRange(s: State)
    requires WellTyped(s)
    ensures forall t :: t in Gathered(s) ==> t < |s.all|
  {
  }

  lemma StopEndInv(s: State, i: nat)
    requires Inv(s) && Enabled(s, StopEnd(i))
    ensures Inv(DoStopEnd(s, i)) && NoneLive(s)
  {
    forall t | 0 <= t < |s.all| ensures !s.all[t].Live() {
      assert t in s.stops[i] || !s.all[t].Live();
    }
  }

  // Moving a task on, without changing what is recorded.
  lemma GotoInv(s: State, t: TaskId, pc: Pc)
    requires Inv(s) && t < |s.all| && s.all[t].Live() && Fits(s.all[t].kind, pc)
    requires pc.Backoff? ==> Down(s, pc.spec) && pc.seconds <= 30
    ensures Inv(Goto(s, t, pc))
  {
    var s' := Goto(s, t, pc);
    forall u | 0 <= u < |s'.all| ensures MonitorOk(s', u) {
      assert MonitorOk(s, u) && MonitorOk(s, t);
    }
  }

  lemma LogInv(s: State, e: Event)
    requires Inv(s)
    ensures Inv(Log(s, e))
  {
    var s' := Log(s, e);
    forall u | 0 <= u < |s'.all| ensures MonitorOk(s', u) {
      assert MonitorOk(s, u);
    }
    assert StopsReach(s');
  }

  lemma RestartsInv(s: State, restarts: seq<nat>)
    requires Inv(s) && |restarts| == SPECS
    ensures Inv(s.(restarts := restarts))
  {
    var s' := s.(restarts := restarts);
    forall u | 0 <= u < |s'.all| ensures MonitorOk(s', u) {
      assert MonitorOk(s, u);
    }
    assert StopsReach(s');
  }

  lemma WorkerInv(s: State, t: TaskId, c: Choice)
    requires Inv(s) && Enabled(s, WorkerRuns(t, c))
    ensures Inv(ResumeWorker(s, t, c))
  {
    var task := s.all[t];
    match task.pc
    case Running(job, attempts) =>
      var e := if c.SettleFault? then Lost(t, job) else if task.cancel then Failed(t, job, 2)
        else if c.HandlerDone? then Completed(t, job) else Failed(t, job, RetryDelay(attempts));
      LogInv(s, e);
      GotoInv(Log(s, e), t, if c.SettleFault? || task.cancel then Ended else Top);
    case Top =>
      if s.stopEvent || c.LoopFault? {
        GotoInv(s, t, Ended);
      } else if c.Job? {
        LogInv(s, Claimed(t, c.job));
        GotoInv(Log(s, Claimed(t, c.job)), t, Running(c.job, c.attempts));
      } else {
        GotoInv(s, t, Idle);
      }
    case _ =>
      GotoInv(s, t, if task.cancel then Ended else Top);
  }

  lemma BackoffBound(restarts: nat)
    ensures BackoffDelay(restarts) <= 30
    ensures restarts >= 1 ==> BackoffDelay(restarts) >= 2
  {
  }

  lemma {:induction false} ScanInv(s: State, t: TaskId, w: nat, fault: bool)
    requires Inv(s) && t < |s.all| && s.all[t].Live() && s.all[t].kind.Monitor?
    ensures Inv(Scan(s, t, w, fault))
    decreases SPECS - w
  {
    if w >= SPECS {
      GotoInv(s, t, if s.stopEvent then Ended else Heartbeat);
    } else if Down(s, w) {
      var n := s.restarts[w] + 1;
      var s' := s.(restarts := s.restarts[w := n]);
      RestartsInv(s, s'.restarts);
      BackoffBound(n);
      assert Down(s', w);
      hide Inv;
      GotoInv(s', t, if fault then Ended else Backoff(w, BackoffDelay(n)));
    } else {
      ScanInv(s, t, w + 1, fault);
    }
  }

  // While a stop waits, everything live has been told to end.
  lemma CancelledDuringStop(s: State, t: TaskId)
    requires Inv(s) && s.stops != [] && t < |s.all| && s.all[t].Live()
    ensures s.all[t].cancel
  {
    assert t in s.stops[0];
  }

  lemma MonitorInv(s: State, t: TaskId, fault: bool)
    requires Inv(s) && Enabled(s, MonitorRuns(t, fault))
    ensures Inv(ResumeMonitor(s, t, fault))
  {
    hide Inv, Scan;
    var task := s.all[t];
    if task.cancel || task.pc.Fresh? {
      GotoInv(s, t, if task.cancel || s.stopEvent then Ended else Heartbeat);
    } else if task.pc.Backoff? {
      AwakeInv(s, t, task.pc.spec);
      ScanInv(Spawn(Goto(s, t, Heartbeat), task.pc.spec), t, task.pc.spec + 1, fault);
    } else {
      ScanInv(s, t, 0, fault);
    }
  }

  // The backoff is over: the worker is still down, and nobody else attends to it.
  lemma AwakeInv(s: State, t: TaskId, w: nat)
    requires Inv(s) && t < |s.all| && s.all[t].kind.Monitor? && !s.all[t].cancel
    requires s.all[t].pc.Backoff? && s.all[t].pc.spec == w
    ensures Inv(Spawn(Goto(s, t, Heartbeat), w))
    ensures |s.all| < |Spawn(Goto(s, t, Heartbeat), w).all|
  {
    var s1 := Goto(s, t, Heartbeat);
    assert MonitorOk(s, t);
    GotoInv(s, t, Heartbeat);
    forall u | 0 <= u < |s1.all| && s1.all[u].kind.Monitor? && s1.all[u].Live() ensures u == t {
      assert MonitorOk(s1, u) && MonitorOk(s1, t);
    }
    if s.stops != [] {
      CancelledDuringStop(s, t);
    }
    assert Down(s1, w);
    SpawnInv(s1, w);
  }

  lemma StopAbandonedInv(s: State, i: nat)
    requires Inv(s) && i < |s.stops|
    ensures Inv(s.(stops := s.stops[..i] + s.stops[i + 1..]))
  {
    var s' := s.(stops := s.stops[..i] + s.stops[i + 1..]);
    forall u | 0 <= u < |s'.all| ensures MonitorOk(s', u) {
      assert MonitorOk(s, u);
    }
    forall j | 0 <= j < |s'.stops| ensures s'.stops[j] in s.stops {
      assert s'.stops[j] == s.stops[if j < i then j else j + 1];
    }
    assert StopsReach(s');
  }

  lemma ResumedInv(s: State, i: nat)
    requires Inv(s) && i < |s.waiting|
    ensures Inv(Resumed(s, i))
  {
    var s' := Resumed(s, i);
    forall u | 0 <= u < |s'.all| ensures MonitorOk(s', u) {
      assert MonitorOk(s, u);
    }
    forall j | 0 <= j < |s'.waiting| ensures s'.waiting[j] in s.waiting {
      assert s'.waiting[j] == s.waiting[if j < i then j else j + 1];
    }
    assert StopsReach(s');
  }

  lemma RestartBeginInv(s: State, w: nat)
    requires Inv(s) && w in s.tasks && w < SPECS
    ensures Inv(DoRestartBegin(s, w))
  {
    var s' := DoRestartBegin(s, w);
    forall u | 0 <= u < |s'.all| ensures MonitorOk(s', u) {
      assert MonitorOk(s, u);
    }
    forall i | 0 <= i < |s'.stops| ensures Reached(s'.all, s'.stops[i]) {
      assert Reached(s.all, s.stops[i]);
    }
  }

  lemma RespawnInv(s: State, w: nat)
    requires Inv(s) && w < SPECS && MayRespawn(s, w)
    ensures Inv(Respawn(s, w))
  {
    var s1 := s.(restarts := s.restarts[w := s.restarts[w] + 1]);
    RestartsInv(s, s1.restarts);
    SpawnInv(s1, w);
  }

  // Every guarded step keeps the invariant.
  lemma StepInv(s: State, step: Step)
    requires Inv(s) && Enabled(s, step) && Guard(s, step)
    ensures Inv(Apply(s, step))
  {
    match step
    case Start => StartInv(s);
    case StopBegin => StopBeginInv(s);
    case StopEnd(i) => StopEndInv(s, i);
    case StopAbandoned(i) => StopAbandonedInv(s, i);
    case RestartBegin(w) =>
      if w in s.tasks {
        RestartBeginInv(s, w);
      } else {
        RespawnInv(s, w);
      }
    case RestartEnd(i) =>
      ResumedInv(s, i);
      RespawnInv(Resumed(s, i), s.waiting[i].spec);
    case RestartAbandoned(i) => ResumedInv(s, i);
    case WorkerRuns(t, c) => WorkerInv(s, t, c);
    case MonitorRuns(t, fault) => MonitorInv(s, t, fault);
    case SchedulerRuns(t, fault) => GotoInv(s, t, if s.all[t].cancel || s.stopEvent || fault then Ended else Tick);
  }

  // ----- What every step keeps, guarded or not -----

  lemma SpawnTyped(s: State, w: nat)
    requires WellTyped(s)
    ensures WellTyped(Spawn(s, w))
  {
  }

  lemma {:induction false} SpawnFromTyped(s: State, w: nat)
    requires WellTyped(s)
    ensures WellTyped(SpawnFrom(s, w)) && SpawnFrom(s, w).inProcess == s.inProcess
    decreases SPECS - w
  {
    hide WellTyped;
    if w < SPECS {
      SpawnTyped(s, w);
      SpawnFromTyped(Spawn(s, w), w + 1);
    }
  }

  lemma WatchersTyped(s: State)
    requires WellTyped(s)
    ensures s.inProcess ==> WellTyped(StartMonitor(s))
    ensures WellTyped(StartScheduler(s))
  {
  }

  lemma FlagsTyped(s: State, started: bool, stopEvent: bool)
    requires WellTyped(s)
    ensures WellTyped(s.(started := started, stopEvent := stopEvent))
  {
  }

  lemma StartTyped(s: State)
    requires WellTyped(s)
    ensures WellTyped(DoStart(s))
  {
    hide WellTyped;
    if !s.started {
      var s1 := s.(started := true, stopEvent := false);
      FlagsTyped(s, true, false);
      if s.inProcess {
        SpawnFromTyped(s1, 0);
        WatchersTyped(SpawnFrom(s1, 0));
        WatchersTyped(StartMonitor(SpawnFrom(s1, 0)));
      }
    }
  }

  lemma CancelledTyped(s: State, ids: set<TaskId>)
    requires WellTyped(s)
    ensures WellTyped(s.(all := Cancelled(s.all, ids)))
  {
  }

  lemma StopBeginTyped(s: State)
    requires WellTyped(s)
    ensures WellTyped(DoStopBegin(s))
  {
    GatheredInRange(s);
    hide Gathered;
    CancelledTyped(s, Gathered(s));
    FlagsTyped(s.(all := Cancelled(s.all, Gathered(s))), s.started, true);
  }

  lemma StopRemovedTyped(s: State, i: nat)
    requires WellTyped(s) && i < |s.stops|
    ensures WellTyped(s.(stops := s.stops[..i] + s.stops[i + 1..]))
    ensures WellTyped(DoStopEnd(s, i))
  {
    var stops := s.stops[..i] + s.stops[i + 1..];
    forall j | 0 <= j < |stops| ensures stops[j] in s.stops {
      assert stops[j] == s.stops[if j < i then j else j + 1];
    }
  }

  lemma RespawnTyped(s: State, w: nat)
    requires WellTyped(s) && w < SPECS
    ensures WellTyped(Respawn(s, w))
  {
    CountTyped(s, s.restarts[w := s.restarts[w] + 1]);
    hide Spawn;
    SpawnTyped(s.(restarts := s.restarts[w := s.restarts[w] + 1]), w);
  }

  lemma ResumedTyped(s: State, i: nat)
    requires WellTyped(s) && i < |s.waiting|
    ensures WellTyped(Resumed(s, i))
  {
    var waiting := Resumed(s, i).waiting;
    forall j | 0 <= j < |waiting| ensures waiting[j] in s.waiting {
      assert waiting[j] == s.waiting[if j < i then j else j + 1];
    }
  }

  lemma RestartBeginTyped(s: State, w: nat)
    requires WellTyped(s) && w < SPECS
    ensures WellTyped(DoRestartBegin(s, w))
  {
    if w in s.tasks {
      CancelledTyped(s, {s.tasks[w]});
    } else {
      RespawnTyped(s, w);
    }
  }

  lemma GotoTyped(s: State, t: TaskId, pc: Pc)
    requires WellTyped(s) && t < |s.all| && Fits(s.all[t].kind, pc)
    ensures WellTyped(Goto(s, t, pc))
  {
  }

  lemma LogTyped(s: State, e: Event)
    requires WellTyped(s)
    ensures WellTyped(Log(s, e))
  {
  }

  lemma WorkerTyped(s: State, t: TaskId, c: Choice)
    requires WellTyped(s) && Enabled(s, WorkerRuns(t, c))
    ensures WellTyped(ResumeWorker(s, t, c))
  {
    hide WellTyped, RetryDelay;
    var task, r := s.all[t], ResumeWorker(s, t, c);
    if task.pc.Running? {
      var e := if c.SettleFault? then Lost(t, task.pc.job) else if task.cancel then Failed(t, task.pc.job, 2)
        else if c.HandlerDone? then Completed(t, task.pc.job)
        else Failed(t, task.pc.job, RetryDelay(task.pc.attempts));
      LogTyped(s, e);
      GotoTyped(Log(s, e), t, if c.SettleFault? || task.cancel then Ended else Top);
    } else if task.pc == Top && !s.stopEvent && c.Job? {
      LogTyped(s, Claimed(t, c.job));
      GotoTyped(Log(s, Claimed(t, c.job)), t, Running(c.job, c.attempts));
    } else {
      GotoTyped(s, t, r.all[t].pc);
    }
  }

  lemma CountTyped(s: State, restarts: seq<nat>)
    requires WellTyped(s) && |restarts| == SPECS
    ensures WellTyped(s.(restarts := restarts))
  {
  }

  lemma {:induction false} ScanTyped(s: State, t: TaskId, w: nat, fault: bool)
    requires WellTyped(s) && t < |s.all| && s.all[t].kind.Monitor? && |s.restarts| == SPECS
    ensures WellTyped(Scan(s, t, w, fault))
    decreases SPECS - w
  {
    hide WellTyped, Down, Goto;
    if w >= SPECS {
      GotoTyped(s, t, if s.stopEvent then Ended else Heartbeat);
    } else if Down(s, w) {
      var n := s.restarts[w] + 1;
      var s1 := s.(restarts := s.restarts[w := n]);
      CountTyped(s, s.restarts[w := n]);
      GotoTyped(s1, t, if fault then Ended else Backoff(w, BackoffDelay(n)));
    } else {
      ScanTyped(s, t, w + 1, fault);
    }
  }

  lemma MonitorTyped(s: State, t: TaskId, fault: bool)
    requires WellTyped(s) && Enabled(s, MonitorRuns(t, fault))
    ensures WellTyped(ResumeMonitor(s, t, fault))
  {
    hide WellTyped, Scan;
    var task := s.all[t];
    if task.cancel || task.pc.Fresh? {
      GotoTyped(s, t, if task.cancel || s.stopEvent then Ended else Heartbeat);
    } else if task.pc.Backoff? {
      GotoTyped(s, t, Heartbeat);
      SpawnTyped(Goto(s, t, Heartbeat), task.pc.spec);
      ScanTyped(Spawn(Goto(s, t, Heartbeat), task.pc.spec), t, task.pc.spec + 1, fault);
    } else {
      ScanTyped(s, t, 0, fault);
    }
  }

  lemma StepTyped(s: State, step: Step)
    requires WellTyped(s) && Enabled(s, step)
    ensures WellTyped(Apply(s, step))
  {
    hide WellTyped, DoStart, DoStopBegin, DoRestartBegin, ResumeWorker, ResumeMonitor, WorkerMay;
    match step
    case Start => StartTyped(s);
    case StopBegin => StopBeginTyped(s);
    case StopEnd(i) => StopRemovedTyped(s, i);
    case StopAbandoned(i) => StopRemovedTyped(s, i);
    case RestartBegin(w) => RestartBeginTyped(s, w);
    case RestartEnd(i) =>
      ResumedTyped(s, i);
      RespawnTyped(Resumed(s, i), s.waiting[i].spec);
    case RestartAbandoned(i) => ResumedTyped(s, i);
    case WorkerRuns(t, c) => WorkerTyped(s, t, c);
    case MonitorRuns(t, fault) => MonitorTyped(s, t, fault);
    case SchedulerRuns(t, fault) => GotoTyped(s, t, if s.all[t].cancel || s.stopEvent || fault then Ended else Tick);
  }

  // ----- Runs -----

  ghost predicate Possible(s: State, steps: seq<Step>)
    decreases |steps|
  {
    steps == [] || (Enabled(s, steps[0]) && Possible(Apply(s, steps[0]), steps[1..]))
  }

  ghost function Exec(s: State, steps: seq<Step>): State
    requires Possible(s, steps)
    decreases |steps|
  {
    if steps == [] then s else Exec(Apply(s, steps[0]), steps[1..])
  }

  ghost predicate Guarded(s: State, steps: seq<Step>)
    requires Possible(s, steps)
    decreases |steps|
  {
    steps == [] || (Guard(s, steps[0]) && Guarded(Apply(s, steps[0]), steps[1..]))
  }

  lemma {:induction false} RunInv(s: State, steps: seq<Step>)
    requires Inv(s) && Possible(s, steps) && Guarded(s, steps)
    ensures Inv(Exec(s, steps))
    decreases |steps|
  {
    hide Inv, Enabled, Guard, Apply;
    if steps != [] {
      StepInv(s, steps[0]);
      RunInv(Apply(s, steps[0]), steps[1..]);
    }
  }

  lemma {:induction false} RunSettled(s: State, steps: seq<Step>)
    requires WellTyped(s) && Settled(s) && Possible(s, steps)
    ensures WellTyped(Exec(s, steps)) && Settled(Exec(s, steps))
    decreases |steps|
  {
    hide WellTyped, Settled, Enabled, Apply;
    if steps != [] {
      StepTyped(s, steps[0]);
      StepSettled(s, steps[0]);
      RunSettled(Apply(s, steps[0]), steps[1..]);
    }
  }

  // In every guarded run each worker has at most one live task, which is the recorded one;
  // the monitor backs off at most 30 seconds, and unless cancelled only for a worker that is
  // down; and a stopped supervisor has nothing live.
  lemma RunsAreSafe(inProcess: bool, scheduling: bool, steps: seq<Step>)
    requires Possible(Init(inProcess, scheduling), steps) && Guarded(Init(inProcess, scheduling), steps)
    ensures var s := Exec(Init(inProcess, scheduling), steps);
      && Recorded(s)
      && (forall t :: 0 <= t < |s.all| ==> MonitorOk(s, t))
      && (!s.started ==> NoneLive(s))
  {
    InitInv(inProcess, scheduling);
    RunInv(Init(inProcess, scheduling), steps);
  }

  // In every run, guarded or not, jobs are conserved: per task, claims and settlements
  // alternate, each settlement is of the job claimed, and every claimed job is completed,
  // failed, lost or in hand. None is lost unless settling it raises.
  lemma JobLedger(inProcess: bool, scheduling: bool, steps: seq<Step>)
    requires Possible(Init(inProcess, scheduling), steps)
    ensures var s := Exec(Init(inProcess, scheduling), steps);
      && Settled(s)
      && Claims(s.log) == Completions(s.log) + Failures(s.log) + Losses(s.log) + InHand(s.all)
      && (NoSettleFault(steps) ==> Losses(s.log) == 0)
  {
    InitInv(inProcess, scheduling);
    RunSettled(Init(inProcess, scheduling), steps);
    if NoSettleFault(steps) {
      NoLosses(Init(inProcess, scheduling), steps);
    }
  }

  // So when a stop returns, every job that the tasks it waited for ever claimed is settled.
  lemma StopSettlesJobs(inProcess: bool, scheduling: bool, steps: seq<Step>, i: nat, t: TaskId)
    requires Possible(Init(inProcess, scheduling), steps)
    requires Enabled(Exec(Init(inProcess, scheduling), steps), StopEnd(i))
    requires t in Exec(Init(inProcess, scheduling), steps).stops[i]
    ensures Pending(Exec(Init(inProcess, scheduling), steps).log, t) == None
  {
    JobLedger(inProcess, scheduling, steps);
  }

  // The store takes every settlement of the run.
  ghost predicate NoSettleFault(steps: seq<Step>)
  {
    forall i :: 0 <= i < |steps| && steps[i].WorkerRuns? ==> !steps[i].choice.SettleFault?
  }

  lemma StepLosses(s: State, step: Step)
    requires WellTyped(s) && Enabled(s, step) && (step.WorkerRuns? ==> !step.choice.SettleFault?)
    ensures Losses(Apply(s, step).log) == Losses(s.log)
  {
    hide Losses, WellTyped, WorkerMay;
    if step.WorkerRuns? {
      WorkerLoses(s, step.task, step.choice);
    } else {
      StepUnclaimed(s, step);
      hide Apply;
    }
  }

  lemma WorkerLoses(s: State, t: TaskId, c: Choice)
    requires Enabled(s, WorkerRuns(t, c)) && !c.SettleFault?
    ensures Losses(ResumeWorker(s, t, c).log) == Losses(s.log)
  {
    hide Losses, RetryDelay;
    forall e: Event ensures Losses(s.log + [e]) == Losses(s.log) + if e.Lost? then 1 else 0 {
      CountStep(s.log, e);
    }
  }

  lemma {:induction false} NoLosses(s: State, steps: seq<Step>)
    requires WellTyped(s) && Possible(s, steps) && NoSettleFault(steps)
    ensures Losses(Exec(s, steps).log) == Losses(s.log)
    decreases |steps|
  {
    hide WellTyped, Enabled, Apply, Losses;
    if steps != [] {
      StepLosses(s, steps[0]);
      StepTyped(s, steps[0]);
      NoLosses(Apply(s, steps[0]), steps[1..]);
    }
  }

  // When stop returns, nothing is live and no claimed job is still in hand.
  lemma StopLeavesNothing(inProcess: bool, scheduling: bool, steps: seq<Step>, i: nat)
    requires Possible(Init(inProcess, scheduling), steps) && Guarded(Init(inProcess, scheduling), steps)
    requires Enabled(Exec(Init(inProcess, scheduling), steps), StopEnd(i))
    ensures var s := DoStopEnd(Exec(Init(inProcess, scheduling), steps), i);
      NoneLive(s) && s.tasks == map[] && Claims(s.log) == Completions(s.log) + Failures(s.log) + Losses(s.log)
  {
    var s := Exec(Init(inProcess, scheduling), steps);
    InitInv(inProcess, scheduling);
    RunInv(Init(inProcess, scheduling), steps);
    RunSettled(Init(inProcess, scheduling), steps);
    StopEndInv(s, i);
    NoneInHand(s.all);
  }

  // ----- Jobs -----

  // The job a task has claimed and not settled, read off the log.
  function Pending(log: seq<Event>, t: TaskId): Option<nat>
  {
    if log == [] then None
    else
      var e := log[|log| - 1];
      if e.task != t then Pending(log[..|log| - 1], t)
      else if e.Claimed? then Some(e.job)
      else None
  }

  // Per task, claims and settlements alternate, and each settlement is of the job claimed.
  ghost predicate Bracketed(log: seq<Event>)
  {
    log != [] ==>
      var e, front := log[|log| - 1], log[..|log| - 1];
      && Bracketed(front)
      && Pending(front, e.task) == (if e.Claimed? then None else Some(e.job))
      && (e.Failed? ==> 2 <= e.delay <= 60)
  }

  function Claims(log: seq<Event>): nat
  {
    if log == [] then 0 else Claims(log[..|log| - 1]) + if log[|log| - 1].Claimed? then 1 else 0
  }

  function Completions(log: seq<Event>): nat
  {
    if log == [] then 0 else Completions(log[..|log| - 1]) + if log[|log| - 1].Completed? then 1 else 0
  }

  function Failures(log: seq<Event>): nat
  {
    if log == [] then 0 else Failures(log[..|log| - 1]) + if log[|log| - 1].Failed? then 1 else 0
  }

  function Losses(log: seq<Event>): nat
  {
    if log == [] then 0 else Losses(log[..|log| - 1]) + if log[|log| - 1].Lost? then 1 else 0
  }

  function InHand(all: seq<Task>): nat
  {
    if all == [] then 0 else InHand(all[..|all| - 1]) + if all[|all| - 1].pc.Running? then 1 else 0
  }

  function JobOf(pc: Pc): Option<nat>
  {
    if pc.Running? then Some(pc.job) else None
  }

  ghost predicate Settled(s: State)
  {
    && Bracketed(s.log)
    && (forall t: nat :: Pending(s.log, t) == (if t < |s.all| then JobOf(s.all[t].pc) else None))
    && Claims(s.log) == Completions(s.log) + Failures(s.log) + Losses(s.log) + InHand(s.all)
  }

  lemma {:induction false} NoneInHand(all: seq<Task>)
    requires forall t :: 0 <= t < |all| ==> !all[t].pc.Running?
    ensures InHand(all) == 0
  {
    if all != [] {
      NoneInHand(all[..|all| - 1]);
    }
  }

  lemma {:induction false} InHandUpdate(all: seq<Task>, t: nat, task: Task)
    requires t < |all|
    ensures InHand(all[t := task])
         == InHand(all) + (if task.pc.Running? then 1 else 0) - if all[t].pc.Running? then 1 else 0
  {
    var n := |all| - 1;
    if t == n {
      assert all[t := task][..n] == all[..n];
    } else {
      assert all[t := task][..n] == all[..n][t := task];
      InHandUpdate(all[..n], t, task);
    }
  }

  lemma {:induction false} InHandSame(all: seq<Task>, all': seq<Task>)
    requires |all| <= |all'|
    requires forall t :: 0 <= t < |all| ==> JobOf(all'[t].pc) == JobOf(all[t].pc)
    requires forall t :: |all| <= t < |all'| ==> !all'[t].pc.Running?
    ensures InHand(all') == InHand(all)
    decreases |all'|
  {
    var n := |all'| - 1;
    if |all'| > |all| {
      InHandSame(all, all'[..n]);
    } else if all' != [] {
      InHandSame(all[..n], all'[..n]);
    }
  }

  // A step that logs nothing and leaves claimed jobs where they are.
  lemma SameJobs(s: State, s': State)
    requires Settled(s) && s'.log == s.log && |s.all| <= |s'.all|
    requires forall t :: 0 <= t < |s.all| ==> JobOf(s'.all[t].pc) == JobOf(s.all[t].pc)
    requires forall t :: |s.all| <= t < |s'.all| ==> !s'.all[t].pc.Running?
    ensures Settled(s')
  {
    InHandSame(s.all, s'.all);
  }

  lemma CountStep(log: seq<Event>, e: Event)
    ensures Claims(log + [e]) == Claims(log) + if e.Claimed? then 1 else 0
    ensures Completions(log + [e]) == Completions(log) + if e.Completed? then 1 else 0
    ensures Failures(log + [e]) == Failures(log) + if e.Failed? then 1 else 0
    ensures Losses(log + [e]) == Losses(log) + if e.Lost? then 1 else 0
  {
    assert (log + [e])[..|log|] == log;
  }

  lemma LoggedStep(s: State, e: Event, pc: Pc)
    requires Settled(s) && e.task < |s.all|
    requires JobOf(s.all[e.task].pc) == if e.Claimed? then None else Some(e.job)
    requires JobOf(pc) == if e.Claimed? then Some(e.job) else None
    requires e.Failed? ==> 2 <= e.delay <= 60
    ensures Settled(Goto(Log(s, e), e.task, pc))
  {
    CountStep(s.log, e);
    assert (s.log + [e])[..|s.log|] == s.log;
    InHandUpdate(s.all, e.task, s.all[e.task].(pc := pc));
  }

  lemma {:induction false} PowerAtLeast(n: nat)
    requires n >= 1
    ensures Pow2(n) >= 2
  {
    if n > 1 {
      PowerAtLeast(n - 1);
    }
  }

  lemma {:induction false} PowerMonotone(m: nat, n: nat)
    requires m <= n
    ensures Pow2(m) <= Pow2(n)
    decreases n
  {
    if m < n {
      PowerMonotone(m, n - 1);
    }
  }

  // The first retry waits 2 seconds and each later one twice as long, until 60 is reached.
  lemma RetryDoubles(attempts: int)
    ensures attempts <= 1 ==> RetryDelay(attempts) == 2
    ensures attempts >= 1 ==>
      RetryDelay(attempts + 1) == if 2 * RetryDelay(attempts) < 60 then 2 * RetryDelay(attempts) else 60
  {
    PowerAtLeast(if attempts < 1 then 1 else attempts);
    assert Pow2(1) == 2;
  }

  // After the first crashes of a worker the monitor waits 2, 4, 8 and 16 seconds, then 30.
  lemma BackoffValues(restarts: nat)
    ensures BackoffDelay(1) == 2 && BackoffDelay(2) == 4 && BackoffDelay(3) == 8 && BackoffDelay(4) == 16
    ensures restarts >= 5 ==> BackoffDelay(restarts) == 30
  {
    assert Pow2(3) == 8 && Pow2(5) == 32;
  }

  // Retries wait 2 to 60 seconds, longer after more attempts.
  lemma RetryBounds(attempts: int, more: int)
    ensures 2 <= RetryDelay(attempts) <= 60
    ensures attempts <= more ==> RetryDelay(attempts) <= RetryDelay(more)
  {
    PowerAtLeast(if attempts < 1 then 1 else attempts);
    if attempts <= more {
      PowerMonotone(if attempts < 1 then 1 else attempts, if more < 1 then 1 else more);
    }
  }

  lemma WorkerSettled(s: State, t: TaskId, c: Choice)
    requires Settled(s) && Enabled(s, WorkerRuns(t, c))
    ensures Settled(ResumeWorker(s, t, c))
  {
    hide Settled;
    var task := s.all[t];
    var s' := ResumeWorker(s, t, c);
    if task.pc.Running? {
      var Running(job, attempts) := task.pc;
      RetryBounds(attempts, attempts);
      if c.SettleFault? {
        LoggedStep(s, Lost(t, job), Ended);
      } else if task.cancel {
        LoggedStep(s, Failed(t, job, 2), Ended);
      } else if c.HandlerDone? {
        LoggedStep(s, Completed(t, job), Top);
      } else {
        LoggedStep(s, Failed(t, job, RetryDelay(attempts)), Top);
      }
    } else if task.pc == Top && !s.stopEvent && c.Job? {
      LoggedStep(s, Claimed(t, c.job), Running(c.job, c.attempts));
    } else {
      SameJobs(s, s');
    }
  }

  // What a monitor or a start does to the table of tasks: new ones are fresh, and no claimed
  // job moves.
  ghost predicate Unclaimed(s: State, s': State)
  {
    && s'.log == s.log && |s.all| <= |s'.all|
    && (forall t :: 0 <= t < |s.all| ==> JobOf(s'.all[t].pc) == JobOf(s.all[t].pc))
    && (forall t :: |s.all| <= t < |s'.all| ==> !s'.all[t].pc.Running?)
  }

  lemma {:induction false} ScanUnclaimed(s: State, t: TaskId, w: nat, fault: bool)
    requires t < |s.all| && |s.restarts| == SPECS && !s.all[t].pc.Running?
    ensures Unclaimed(s, Scan(s, t, w, fault))
    decreases SPECS - w
  {
    if w < SPECS && !Down(s, w) {
      ScanUnclaimed(s, t, w + 1, fault);
    }
  }

  lemma {:induction false} SpawnFromUnclaimed(s: State, w: nat)
    ensures Unclaimed(s, SpawnFrom(s, w))
    decreases SPECS - w
  {
    if w < SPECS {
      SpawnFromUnclaimed(Spawn(s, w), w + 1);
    }
  }

  lemma StartUnclaimed(s: State)
    ensures Unclaimed(s, DoStart(s))
  {
    SpawnFromUnclaimed(s.(started := true, stopEvent := false), 0);
  }

  lemma AwakeUnclaimed(s: State, t: TaskId, w: nat)
    requires t < |s.all| && !s.all[t].pc.Running?
    ensures Unclaimed(s, Spawn(Goto(s, t, Heartbeat), w))
  {
  }

  lemma UnclaimedTransitive(s: State, s': State, s'': State)
    requires Unclaimed(s, s') && Unclaimed(s', s'')
    ensures Unclaimed(s, s'')
  {
  }

  lemma MonitorUnclaimed(s: State, t: TaskId, fault: bool)
    requires Enabled(s, MonitorRuns(t, fault)) && !s.all[t].pc.Running?
    ensures Unclaimed(s, ResumeMonitor(s, t, fault))
  {
    hide Scan, Unclaimed;
    var pc := s.all[t].pc;
    if s.all[t].cancel || pc.Fresh? {
      StayUnclaimed(s, t, if s.all[t].cancel || s.stopEvent then Ended else Heartbeat);
    } else if pc.Backoff? {
      var s1 := Spawn(Goto(s, t, Heartbeat), pc.spec);
      AwakeUnclaimed(s, t, pc.spec);
      ScanUnclaimed(s1, t, pc.spec + 1, fault);
      UnclaimedTransitive(s, s1, Scan(s1, t, pc.spec + 1, fault));
    } else {
      ScanUnclaimed(s, t, 0, fault);
    }
  }

  lemma StayUnclaimed(s: State, t: TaskId, pc: Pc)
    requires t < |s.all| && !s.all[t].pc.Running? && !pc.Running?
    ensures Unclaimed(s, Goto(s, t, pc))
  {
  }

  lemma OtherUnclaimed(s: State, step: Step)
    requires WellTyped(s) && Enabled(s, step) && !step.WorkerRuns? && !step.MonitorRuns? && !step.Start?
    ensures Unclaimed(s, Apply(s, step))
  {
    if step.RestartBegin? || step.RestartEnd? {
      RestartUnclaimed(s, step);
    } else if step.SchedulerRuns? {
      assert Fits(Scheduler, s.all[step.task].pc);
      StayUnclaimed(s, step.task, Apply(s, step).all[step.task].pc);
    }
  }

  lemma RestartUnclaimed(s: State, step: Step)
    requires WellTyped(s) && Enabled(s, step) && (step.RestartBegin? || step.RestartEnd?)
    ensures Unclaimed(s, Apply(s, step))
  {
  }

  // Only workers touch the log or a claimed job.
  lemma StepUnclaimed(s: State, step: Step)
    requires WellTyped(s) && Enabled(s, step) && !step.WorkerRuns?
    ensures Unclaimed(s, Apply(s, step))
  {
    if step.MonitorRuns? {
      assert Fits(Monitor, s.all[step.task].pc);
      MonitorUnclaimed(s, step.task, step.fault);
    } else if step.Start? {
      StartUnclaimed(s);
    } else {
      OtherUnclaimed(s, step);
    }
  }

  lemma StepSettled(s: State, step: Step)
    requires WellTyped(s) && Settled(s) && Enabled(s, step)
    ensures Settled(Apply(s, step))
  {
    hide Settled;
    if step.WorkerRuns? {
      WorkerSettled(s, step.task, step.choice);
    } else {
      StepUnclaimed(s, step);
      hide WellTyped, Apply;
      SameJobs(s, Apply(s, step));
    }
  }

  // Each claim is settled exactly once: the next event of the same task settles that job, or
  // there is none yet and the job is in hand.
  lemma {:induction false} EachClaimSettledOnce(log: seq<Event>, i: nat)
    requires Bracketed(log) && i < |log| && log[i].Claimed?
    ensures
      || (exists j :: i < j < |log| && Settles(log, i, j))
      || (Pending(log, log[i].task) == Some(log[i].job) && forall j :: i < j < |log| ==> log[j].task != log[i].task)
  {
    var n := |log| - 1;
    if i < n {
      var front := log[..n];
      EachClaimSettledOnce(front, i);
      if j :| i < j < |front| && Settles(front, i, j) {
        assert Settles(log, i, j);
      } else if log[n].task == log[i].task {
        assert Settles(log, i, n);
      }
    }
  }

  ghost predicate Settles(log: seq<Event>, i: nat, j: nat)
    requires i < j < |log|
  {
    && !log[j].Claimed? && log[j].task == log[i].task && log[j].job == log[i].job
    && forall k :: i < k < j ==> log[k].task != log[i].task
  }

  // ----- Single steps, in numbers -----

  // How a job in hand is settled. A cancelled task gives it back with a retry after 2 seconds.
  lemma SettlementExact(s: State, t: TaskId, c: Choice)
    requires Enabled(s, WorkerRuns(t, c)) && s.all[t].pc.Running?
    ensures var s', job, attempts := Apply(s, WorkerRuns(t, c)), s.all[t].pc.job, s.all[t].pc.attempts;
      && s'.log == s.log + [
           if c.SettleFault? then Lost(t, job) else if s.all[t].cancel then Failed(t, job, 2)
           else if c.HandlerDone? then Completed(t, job) else Failed(t, job, RetryDelay(attempts))]
      && (s'.all[t].Live() <==> !c.SettleFault? && !s.all[t].cancel)
      && (s'.all[t].Live() ==> s'.all[t].pc == Top)
  {
  }

  // A worker claims a job only at the head of its loop, unless it is told to stop.
  lemma ClaimExact(s: State, t: TaskId, c: Choice)
    requires Enabled(s, WorkerRuns(t, c)) && !s.all[t].pc.Running?
    ensures var s', task := Apply(s, WorkerRuns(t, c)), s.all[t];
      if task.pc == Top && !s.stopEvent && c.Job? then
        s'.log == s.log + [Claimed(t, c.job)] && s'.all[t].pc == Running(c.job, c.attempts)
      else
        && s'.log == s.log
        && (s'.all[t].Live() <==> if task.pc == Top then !s.stopEvent && !c.LoopFault? else !task.cancel)
  {
  }

  lemma {:induction false} ScanFinds(s: State, t: TaskId, w: nat, fault: bool, first: nat)
    requires t < |s.all| && |s.restarts| == SPECS && w <= first <= SPECS
    requires forall v :: w <= v < first ==> !Down(s, v)
    requires first < SPECS ==> Down(s, first)
    ensures first == SPECS ==> Scan(s, t, w, fault) == Goto(s, t, if s.stopEvent then Ended else Heartbeat)
    ensures first < SPECS ==>
      var n := s.restarts[first] + 1;
      Scan(s, t, w, fault) == Goto(
        s.(restarts := s.restarts[first := n]), t, if fault then Ended else Backoff(first, BackoffDelay(n)))
    decreases SPECS - w
  {
    hide BackoffDelay;
    if w < first {
      ScanFinds(s, t, w + 1, fault, first);
    }
  }

  // A monitor that wakes up with every worker running goes back to sleep; otherwise it counts
  // one more restart of the first worker that is down and waits 2, 4, 8, 16 and then 30 seconds.
  lemma CrashWaits(s: State, t: TaskId, first: nat)
    requires Enabled(s, MonitorRuns(t, false)) && s.all[t].pc == Heartbeat && !s.all[t].cancel
    requires first <= SPECS && (forall v :: 0 <= v < first ==> !Down(s, v)) && (first < SPECS ==> Down(s, first))
    ensures var s' := Apply(s, MonitorRuns(t, false));
      if first == SPECS then
        s'.restarts == s.restarts && s'.all[t].pc == if s.stopEvent then Ended else Heartbeat
      else
        var n := s.restarts[first] + 1;
        && s'.restarts == s.restarts[first := n]
        && s'.all[t].pc == Backoff(first, if n == 1 then 2 else if n == 2 then 4 else if n == 3 then 8
                                          else if n == 4 then 16 else 30)
  {
    ScanFinds(s, t, 0, false, first);
    if first < SPECS {
      BackoffValues(s.restarts[first] + 1);
    }
    hide Scan, Down, BackoffDelay;
  }

  // After its wait the monitor revives that worker before it looks at the next ones.
  lemma RevivalExact(s: State, t: TaskId)
    requires Enabled(s, MonitorRuns(t, false)) && s.all[t].pc.Backoff? && !s.all[t].cancel
    requires s.all[t].pc.spec < SPECS
    ensures var s', w := Apply(s, MonitorRuns(t, false)), s.all[t].pc.spec;
      && w in s'.tasks && s'.tasks[w] == |s.all| && |s'.all| == |s.all| + 1
      && s'.all[|s.all|] == Task(Worker(w), Fresh, false)
  {
    var w := s.all[t].pc.spec;
    var s1 := Spawn(Goto(s, t, Heartbeat), w);
    ScanKeeps(s1, t, w + 1, false);
  }

  lemma {:induction false} ScanKeeps(s: State, t: TaskId, w: nat, fault: bool)
    requires t < |s.all| && |s.restarts| == SPECS
    ensures Scan(s, t, w, fault).tasks == s.tasks && |Scan(s, t, w, fault).all| == |s.all|
    ensures forall u :: 0 <= u < |s.all| && u != t ==> Scan(s, t, w, fault).all[u] == s.all[u]
    decreases SPECS - w
  {
    hide BackoffDelay, Down;
    if w < SPECS && !Down(s, w) {
      ScanKeeps(s, t, w + 1, fault);
    }
  }

  // A start makes three workers, a monitor and, when asked for, a scheduler.
  lemma StartExact(s: State)
    requires !s.started && s.inProcess
    ensures var s', n := DoStart(s), |s.all|;
      && s'.started && !s'.stopEvent && s'.monitor == Some(n + 3)
      && s'.tasks == s.tasks[0 := n][1 := n + 1][2 := n + 2]
      && s'.all == s.all
           + [Task(Worker(0), Fresh, false), Task(Worker(1), Fresh, false), Task(Worker(2), Fresh, false)]
           + [Task(Monitor, Fresh, false)] + (if s.scheduling then [Task(Scheduler, Fresh, false)] else [])
      && s'.scheduler == (if s.scheduling then Some(n + 4) else s.scheduler)
  {
    var s1 := s.(started := true, stopEvent := false);
    ThreeWorkers(s1);
    hide SpawnFrom;
  }

  lemma ThreeWorkers(s: State)
    ensures SpawnFrom(s, 0) == Spawn(Spawn(Spawn(s, 0), 1), 2)
  {
    hide Spawn;
    var a := Spawn(s, 0);
    var b := Spawn(a, 1);
    var c := Spawn(b, 2);
    assert SpawnFrom(c, 3) == c;
    assert SpawnFrom(b, 2) == c;
    assert SpawnFrom(a, 1) == c;
  }

  // A restart counts once, for its worker alone, and records one new task.
  lemma RestartExact(s: State, w: nat)
    requires |s.restarts| == SPECS && w < SPECS
    ensures var s', n := Respawn(s, w), |s.all|;
      && s'.restarts == s.restarts[..w] + [s.restarts[w] + 1] + s.restarts[w + 1..]
      && s'.tasks == s.tasks[w := n] && s'.all == s.all + [Task(Worker(w), Fresh, false)]
  {
  }

  // A stop sets the stop event, and whatever is recorded and still running is cancelled; nothing
  // else is.
  lemma StopAsks(s: State, t: TaskId)
    requires t < |s.all|
    ensures var s' := DoStopBegin(s);
      && s'.stopEvent && |s'.all| == |s.all| && s'.all[t].kind == s.all[t].kind && s'.all[t].pc == s.all[t].pc
      && (s'.all[t].cancel <==>
            || s.all[t].cancel
            || (s.all[t].Live()
                && (t in s.tasks.Values || s.monitor == Some(t) || s.scheduler == Some(t))))
  {
  }
}

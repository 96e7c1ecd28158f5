// RuntimeSupervisor of apps/ross-runtime-portal/app/runtime/supervisor.py and the worker loop of
// workers.py, in place: each method is one stretch of the source between two awaits.
module Supervisor {
  import opened Outcomes
  import opened Runtime
  import opened RuntimeGuards

  // What the event that ends a job says about it.
  ghost predicate SettledAs(e: Event, t: TaskId, task: Task, c: Choice)
    requires task.pc.Running?
  {
    && !e.Claimed? && e.task == t && e.job == task.pc.job
    && (e.Lost? <==> c.SettleFault?)
    && (e.Completed? <==> c.HandlerDone? && !task.cancel)
    && (e.Failed? ==> 2 <= e.delay <= 60 && (task.cancel ==> e.delay == 2))
  }

  // A job in hand is settled by exactly one event, whose kind the handler and the cancellation
  // decide; otherwise at most one job is claimed, and none once a stop was asked for. A worker
  // ends only by a cancellation, a stop or a fault.
  ghost predicate WorkedOn(s: State, r: State, t: TaskId, c: Choice)
  {
    && t < |s.all| && t < |r.all|
    && (if s.all[t].pc.Running? then
          JobOf(r.all[t].pc).None? && exists e :: r.log == s.log + [e] && SettledAs(e, t, s.all[t], c)
        else if JobOf(r.all[t].pc).Some? then
          r.log == s.log + [Claimed(t, JobOf(r.all[t].pc).value)] && !s.stopEvent
        else
          r.log == s.log)
    && (!r.all[t].Live() ==> s.all[t].cancel || s.stopEvent || c.LoopFault? || c.SettleFault?)
  }

  lemma WorkerWorks(s: State, t: TaskId, c: Choice)
    requires Enabled(s, WorkerRuns(t, c))
    ensures WorkedOn(s, ResumeWorker(s, t, c), t, c)
  {
    if s.all[t].pc.Running? {
      hide WorkedOn, SettledAs, Enabled;
      var e := WorkerSettles(s, t, c);
      SettlingWorks(s, ResumeWorker(s, t, c), t, c, e);
    }
  }

  lemma SettlingWorks(s: State, r: State, t: TaskId, c: Choice, e: Event)
    requires t < |s.all| && t < |r.all| && s.all[t].pc.Running? && !r.all[t].pc.Running?
    requires r.log == s.log + [e] && SettledAs(e, t, s.all[t], c)
    requires !r.all[t].Live() ==> s.all[t].cancel || c.SettleFault?
    ensures WorkedOn(s, r, t, c)
  {
  }

  lemma WorkerSettles(s: State, t: TaskId, c: Choice) returns (e: Event)
    requires t < |s.all| && s.all[t].Live() && WorkerMay(s.all[t].pc, c) && s.all[t].pc.Running?
    ensures var r := ResumeWorker(s, t, c);
      && t < |r.all| && !r.all[t].pc.Running? && r.log == s.log + [e]
      && SettledAs(e, t, s.all[t], c) && (!r.all[t].Live() ==> s.all[t].cancel || c.SettleFault?)
  {
    RetryBounds(s.all[t].pc.attempts, s.all[t].pc.attempts);
    hide Pow2, RetryDelay;
    e := ResumeWorker(s, t, c).log[|s.log|];
  }

  // The fields of RuntimeSupervisor, together with the event loop's tasks and the suspended
  // callers of stop and restart_worker.
  class RuntimeSupervisor {
    const inProcess: bool
    const scheduling: bool
    var started: bool
    var stopEvent: bool
    var tasks: map<nat, TaskId>
    var monitor: Option<TaskId>
    var scheduler: Option<TaskId>
    var restarts: seq<nat>
    var all: seq<Task>
    var stops: seq<set<TaskId>>
    var waiting: seq<Restart>
    var log: seq<Event>

    function View(): State
      reads this
    {
      State(inProcess, scheduling, started, stopEvent, tasks, monitor, scheduler, restarts, all, stops, waiting, log)
    }

    constructor (inProcess: bool, scheduling: bool)
      ensures View() == Init(inProcess, scheduling)
    {
      this.inProcess, this.scheduling := inProcess, scheduling;
      started, stopEvent := false, false;
      tasks, monitor, scheduler := map[], None, None;
      restarts, all, stops, waiting, log := seq(SPECS, _ => 0), [], [], [], [];
    }

    method SpawnWorker(w: nat)
      modifies this
      ensures View() == Spawn(old(View()), w)
    {
      tasks := tasks[w := |all|];
      all := all + [Task(Worker(w), Fresh, false)];
    }

    method StartUp()
      modifies this
      ensures View() == DoStart(old(View()))
    {
      if started {
        return;
      }
      started := true;
      stopEvent := false;
      if inProcess {
        ghost var s1 := View();
        for w := 0 to SPECS
          invariant started
          invariant SpawnFrom(View(), w) == SpawnFrom(s1, 0)
        {
          SpawnWorker(w);
        }
        monitor := Some(|all|);
        all := all + [Task(Monitor, Fresh, false)];
        if scheduling {
          scheduler := Some(|all|);
          all := all + [Task(Scheduler, Fresh, false)];
        }
      }
    }

    // Cancels what is recorded and, when there is anything, leaves a suspended stop behind.
    method RequestStop()
      modifies this
      ensures View() == DoStopBegin(old(View()))
    {
      var ids := Gathered(View());
      var after := all;
      for t := 0 to |all|
        invariant |after| == |all|
        invariant forall u :: 0 <= u < |all| ==> after[u] == if u < t then Cancelled(all, ids)[u] else all[u]
      {
        if t in ids && all[t].Live() {
          after := after[t := all[t].(cancel := true)];
        }
      }
      assert after == Cancelled(all, ids);
      stopEvent, all := true, after;
      if ids == {} {
        tasks, started := map[], false;
      } else {
        stops := stops + [ids];
      }
    }

    // When the wait of a stop is over, nothing is live, recorded, or in hand.
    method FinishStop(i: nat)
      requires i < |stops|
      modifies this
      ensures View() == DoStopEnd(old(View()), i)
      ensures old(Inv(View()) && Enabled(View(), StopEnd(i))) ==>
        NoneLive(View()) && tasks == map[] && InHand(all) == 0 && Keeps(View())
    {
      ghost var s := View();
      if Inv(s) && Enabled(s, StopEnd(i)) {
        StopEndInv(s, i);
        InvKeeps(DoStopEnd(s, i));
        NoneInHand(s.all);
      }
      stops := stops[..i] + stops[i + 1..];
      tasks, started := map[], false;
    }

    // One resumption of a worker's loop.
    method RunWorker(t: TaskId, c: Choice)
      requires Enabled(View(), WorkerRuns(t, c))
      modifies this
      ensures View() == ResumeWorker(old(View()), t, c)
      ensures WorkedOn(old(View()), View(), t, c)
      ensures old(Settled(View())) ==> Settled(View())
    {
      ghost var s := View();
      WorkerWorks(s, t, c);
      if Settled(s) {
        WorkerSettled(s, t, c);
      }
      hide WorkedOn, Settled, ResumeWorker;
      ResumeWorkerLoop(t, c);
    }

    method ResumeWorkerLoop(t: TaskId, c: Choice)
      requires t < |all| && all[t].Live() && WorkerMay(all[t].pc, c)
      modifies this
      ensures View() == ResumeWorker(old(View()), t, c)
    {
      var task := all[t];
      var next := Top;
      if task.pc.Running? {
        if c.SettleFault? {
          log, next := log + [Lost(t, task.pc.job)], Ended;
        } else if task.cancel {
          log, next := log + [Failed(t, task.pc.job, 2)], Ended;
        } else if c.HandlerDone? {
          log := log + [Completed(t, task.pc.job)];
        } else {
          log := log + [Failed(t, task.pc.job, RetryDelay(task.pc.attempts))];
        }
      } else if task.pc == Top {
        if stopEvent || c.LoopFault? {
          next := Ended;
        } else if c.Job? {
          log, next := log + [Claimed(t, c.job)], Running(c.job, c.attempts);
        } else {
          next := Idle;
        }
      } else if task.cancel {
        next := Ended;
      }
      all := all[t := task.(pc := next)];
    }

    // Cancels the recorded task and waits for it, or spawns at once when there is none.
    method RequestRestart(w: nat)
      requires |restarts| == SPECS && w < SPECS
      modifies this
      ensures View() == DoRestartBegin(old(View()), w)
    {
      if w in tasks {
        var t := tasks[w];
        waiting := waiting + [Restart(w, t)];
        ghost var cancelled := Cancelled(all, {t});
        if t < |all| && all[t].Live() {
          all := all[t := all[t].(cancel := true)];
        }
        assert all == cancelled;
      } else {
        restarts := restarts[w := restarts[w] + 1];
        SpawnWorker(w);
      }
    }

    // The worker gets a new task and its count of restarts goes up. Whether every guarded
    // continuation then keeps one task per worker is decided by what was not looked at.
    method FinishRestart(i: nat)
      requires i < |waiting| && |restarts| == SPECS && waiting[i].spec < SPECS
      modifies this
      ensures View() == DoRestartEnd(old(View()), i)
      ensures var w := old(waiting[i].spec);
        && w in tasks && tasks[w] == old(|all|) && all == old(all) + [Task(Worker(w), Fresh, false)]
        && restarts == old(restarts)[w := old(restarts)[w] + 1]
      ensures old(Inv(View()) && Enabled(View(), RestartEnd(i))) ==>
        (Keeps(View()) <==> old(MayRespawn(View(), waiting[i].spec)))
    {
      ghost var s := View();
      if Inv(s) && Enabled(s, RestartEnd(i)) {
        RestartGuardIsExact(s, i);
      }
      var w := waiting[i].spec;
      waiting := waiting[..i] + waiting[i + 1..];
      restarts := restarts[w := restarts[w] + 1];
      SpawnWorker(w);
    }

    // The monitor's pass over the workers from w on.
    method ScanWorkers(t: TaskId, from: nat, fault: bool)
      requires t < |all| && |restarts| == SPECS
      modifies this
      ensures View() == Scan(old(View()), t, from, fault)
    {
      var w := from;
      while w < SPECS
        invariant View() == old(View())
        invariant Scan(View(), t, w, fault) == Scan(View(), t, from, fault)
      {
        if Down(View(), w) {
          restarts := restarts[w := restarts[w] + 1];
          all := all[t := all[t].(pc := if fault then Ended else Backoff(w, BackoffDelay(restarts[w])))];
          return;
        }
        w := w + 1;
      }
      all := all[t := all[t].(pc := if stopEvent then Ended else Heartbeat)];
    }

    // One waking of the monitor that was not cancelled.
    method WakeMonitor(t: TaskId, fault: bool)
      requires t < |all| && |restarts| == SPECS && !all[t].cancel && !all[t].pc.Fresh?
      modifies this
      ensures View() == ResumeMonitor(old(View()), t, fault)
    {
      hide Scan;
      if all[t].pc.Backoff? {
        var w := all[t].pc.spec;
        all := all[t := all[t].(pc := Heartbeat)];
        SpawnWorker(w);
        ScanWorkers(t, w + 1, fault);
      } else {
        ScanWorkers(t, 0, fault);
      }
    }
  }
}

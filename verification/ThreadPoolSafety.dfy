/** What every run of the thread pool keeps: no task is lost, duplicated or reordered, and the lock,
    the handles and the controller's phases stay consistent. */
module ThreadPoolSafety {
  import opened Wrappers
  import opened ThreadPool

  // ---- Task conservation --------------------------------------------------------------------

  function TasksOf(log: seq<(nat, Task)>): (r: seq<Task>)
    ensures |r| == |log|
    ensures forall j :: 0 <= j < |log| ==> r[j] == log[j].1
  {
    seq(|log|, j requires 0 <= j < |log| => log[j].1)
  }

  ghost predicate Conserved(s: State) { s.accepted == TasksOf(s.dequeued) + s.tasks }

  lemma TasksOfSnoc(log: seq<(nat, Task)>, e: (nat, Task))
    ensures TasksOf(log + [e]) == TasksOf(log) + [e.1]
  {
  }

  lemma StepConserves(s: State, a: Action)
    requires Conserved(s)
    ensures Conserved(Step(s, a))
  {
    match a
    case Work(t) =>
      if t < |s.workers| && s.workers[t].pc.WChecked? && s.tasks != [] {
        TasksOfSnoc(s.dequeued, (t, s.tasks[0]));
        assert s.tasks == [s.tasks[0]] + s.tasks[1..];
      }
    case Enqueue(c) =>
    case _ =>
  }

  /** Over any schedule, through any number of stops and starts: the tasks accepted, in lock order,
      are the tasks dequeued followed by those still queued. So dequeue order is submission order
      and each accepted task goes to one worker. */
  lemma {:induction false} TaskConservation(schedule: seq<Action>)
    ensures var s := Exec(Initial, schedule); s.accepted == TasksOf(s.dequeued) + s.tasks
    decreases |schedule|
  {
    if schedule != [] {
      var front := schedule[..|schedule| - 1];
      TaskConservation(front);
      StepConserves(Exec(Initial, front), schedule[|schedule| - 1]);
    }
  }

  /** Starting and stopping touch neither the queue nor its history: a task accepted and not yet
      taken when `stop` runs is still queued, in place, for the next `start`. */
  lemma StartStopKeepsTasks(s: State, a: Action)
    requires a.CallStart? || a.CallStop? || a.Control?
    ensures Step(s, a).tasks == s.tasks && Step(s, a).dequeued == s.dequeued
  {
  }

  /** With a fixed positive limit the queue never grows past it. */
  lemma {:induction false} QueueLimit(s: State, schedule: seq<Action>)
    requires s.maxQueue > 0 && |s.tasks| <= s.maxQueue
    requires forall j :: 0 <= j < |schedule| ==> !schedule[j].SetMax?
    ensures |Exec(s, schedule).tasks| <= Exec(s, schedule).maxQueue == s.maxQueue
    decreases |schedule|
  {
    if schedule != [] {
      var front := schedule[..|schedule| - 1];
      QueueLimit(s, front);
      StepKeepsLimit(Exec(s, front), schedule[|schedule| - 1]);
    }
  }

  lemma StepKeepsLimit(s: State, a: Action)
    requires s.maxQueue > 0 && |s.tasks| <= s.maxQueue && !a.SetMax?
    ensures |Step(s, a).tasks| <= Step(s, a).maxQueue == s.maxQueue
  {
    if !a.Enqueue? && !a.Work? {
      assert Step(s, a).tasks == s.tasks && Step(s, a).maxQueue == s.maxQueue;
    }
  }

  // ---- Lock discipline ----------------------------------------------------------------------

  ghost predicate LockInv(s: State)
  {
    && (forall t :: 0 <= t < |s.workers| && Holds(s.workers[t].pc) ==> s.lock == Some(t))
    && (s.lock.Some? ==> s.lock.value < |s.workers| && Holds(s.workers[s.lock.value].pc))
    && (forall t :: 0 <= t < |s.workers| && s.workers[t].pc.WAboutToWait? ==> s.tasks == [])
  }

  /** Taking and releasing the lock, or moving under it, by thread `t` alone. */
  lemma LockMove(s: State, s': State, t: nat)
    requires LockInv(s) && t < |s.workers| && |s'.workers| == |s.workers|
    requires forall u :: 0 <= u < |s.workers| && u != t ==> s'.workers[u].pc == s.workers[u].pc
    requires Holds(s'.workers[t].pc) ==> s'.lock == Some(t)
    requires s.lock == Some(t) || s.lock == None || s'.lock == s.lock
    requires s'.lock == Some(t) ==> Holds(s'.workers[t].pc)
    requires s'.lock == Some(t) || s'.lock == None || s'.lock == s.lock
    requires s'.tasks == s.tasks || Holds(s.workers[t].pc)
    requires s'.workers[t].pc.WAboutToWait? ==> s'.tasks == []
    ensures LockInv(s')
  {
    forall u | 0 <= u < |s.workers| && Holds(s'.workers[u].pc)
      ensures s'.lock == Some(u) && (s'.workers[u].pc.WAboutToWait? ==> s'.tasks == [])
    {
      if u != t {
        assert Holds(s.workers[u].pc) && s.lock == Some(u);
      }
    }
  }

  lemma WorkKeepsLock(s: State, t: nat)
    requires LockInv(s)
    ensures LockInv(WorkStep(s, t))
  {
    if t < |s.workers| {
      WorkMovesOneWorker(s, t);
      WorkLocks(s, t);
      LockMove(s, WorkStep(s, t), t);
    }
  }

  lemma WorkLocks(s: State, t: nat)
    requires t < |s.workers| && (Holds(s.workers[t].pc) <==> s.lock == Some(t))
    requires s.workers[t].pc.WAboutToWait? ==> s.tasks == []
    ensures var s' := WorkStep(s, t);
      && (Holds(s'.workers[t].pc) ==> s'.lock == Some(t))
      && (s.lock == Some(t) || s.lock == None || s'.lock == s.lock)
      && (s'.lock == Some(t) ==> Holds(s'.workers[t].pc))
      && (s'.lock == Some(t) || s'.lock == None || s'.lock == s.lock)
      && (s'.tasks == s.tasks || Holds(s.workers[t].pc))
      && (s'.workers[t].pc.WAboutToWait? ==> s'.tasks == [])
  {
    match s.workers[t].pc
    case WWantLock =>
    case WLoop =>
    case WChecked =>
    case WAboutToWait =>
    case WWake =>
    case _ =>
  }

  lemma CrashKeepsLock(s: State, t: nat)
    requires LockInv(s)
    ensures LockInv(CrashStep(s, t))
  {
    if t < |s.workers| {
      LockMove(s, CrashStep(s, t), t);
    }
  }

  lemma OthersKeepLock(s: State, a: Action)
    requires LockInv(s) && !a.Work?
    ensures LockInv(Step(s, a))
  {
    match a
    case Crash(t) => CrashKeepsLock(s, t);
    case SpuriousWake(t) =>
    case Notify(c, t) =>
    case Enqueue(c) =>
    case Control => ControlKeepsLock(s);
    case Supervise => SuperviseKeepsLock(s);
    case _ =>
  }

  lemma ControlKeepsLock(s: State)
    requires LockInv(s)
    ensures LockInv(ControlStep(s))
  {
    match s.k
    case KNotifyTasks(_) =>
    case KJoin(_, _) =>
    case KSpawning(_) =>
    case _ =>
  }

  lemma SuperviseKeepsLock(s: State)
    requires LockInv(s)
    ensures LockInv(SuperviseStep(s))
  {
    match s.v
    case VSpawn(_) =>
    case VHave(_) =>
    case VJoin(_) =>
    case VChecked =>
    case _ =>
  }

  // ---- Controller phases --------------------------------------------------------------------

  ghost predicate PhaseInv(s: State)
  {
    && (s.running ==> !s.v.VExit?)
    && match s.k
       case KIdle => if s.running then |s.handles| == s.numWorkers >= 1 && !s.v.VNone? else s.v.VNone?
       case KStarting(n) => !s.running && s.v.VNone? && n >= 1
       case KSpawning(n) => s.running && s.v.VNone? && |s.handles| <= s.numWorkers == n && n >= 1
       case KNotifyTasks(restart) => !s.running && (restart.Some? ==> restart.value >= 1)
       case KNotifyFinished(restart) => !s.running && (restart.Some? ==> restart.value >= 1)
       case KJoin(_, restart) => !s.running && (restart.Some? ==> restart.value >= 1)
       case KJoinSupervisor(restart) => !s.running && (restart.Some? ==> restart.value >= 1)
  }

  /** Submitter and worker steps: no thread is created or revived, the handle table and the
      controller stand still, and the supervisor is at most woken. */
  ghost predicate WorkerSide(s: State, s': State)
  {
    && s'.running == s.running && s'.k == s.k && s'.numWorkers == s.numWorkers
    && s'.handles == s.handles && s'.period == s.period
    && (s'.v == s.v || (s.v.VWaiting? && s'.v.VWake?))
    && |s'.workers| == |s.workers|
    && forall t :: 0 <= t < |s.workers| ==>
         && s'.workers[t].slot == s.workers[t].slot && s'.workers[t].period == s.workers[t].period
         && (s.workers[t].pc.WDead? ==> s'.workers[t].pc.WDead?)
  }

  /** A worker step changes the program counter of that worker and of no other. */
  lemma WorkMovesOneWorker(s: State, t: nat)
    ensures var s' := WorkStep(s, t);
      && |s'.workers| == |s.workers|
      && (t < |s.workers| ==>
            && s'.workers == s.workers[t := s.workers[t].(pc := s'.workers[t].pc)]
            && (s.workers[t].pc.WDead? ==> s'.workers[t].pc.WDead?))
      && (t >= |s.workers| ==> s'.workers == s.workers)
  {
    if t < |s.workers| {
      assert s.workers[t := s.workers[t]] == s.workers;
    }
  }

  lemma WorkTouchesLittle(s: State, t: nat)
    ensures var s' := WorkStep(s, t);
      && s'.running == s.running && s'.k == s.k && s'.numWorkers == s.numWorkers
      && s'.handles == s.handles && s'.period == s.period && s'.calls == s.calls
      && (s'.v == s.v || (s.v.VWaiting? && s'.v.VWake?))
  {
    if t < |s.workers| {
      match s.workers[t].pc
      case WTop =>
      case WWantLock =>
      case WLoop =>
      case WWake =>
      case WChecked =>
      case WExiting =>
      case _ =>
    }
  }

  lemma WorkIsWorkerSide(s: State, t: nat)
    ensures WorkerSide(s, WorkStep(s, t))
  {
    WorkMovesOneWorker(s, t);
    WorkTouchesLittle(s, t);
  }

  lemma IsWorkerSide(s: State, a: Action)
    requires !a.Supervise? && !a.Control? && !a.CallStart? && !a.CallStop?
    ensures WorkerSide(s, Step(s, a))
  {
    match a
    case Work(t) => WorkIsWorkerSide(s, t);
    case _ =>
  }

  lemma SuperviseKeepsPhase(s: State)
    requires PhaseInv(s)
    ensures PhaseInv(SuperviseStep(s))
  {
    SuperviseTouchesLittle(s);
  }

  lemma SuperviseTouchesLittle(s: State)
    ensures var s' := SuperviseStep(s);
      && s'.running == s.running && s'.k == s.k && s'.numWorkers == s.numWorkers
      && |s'.handles| == |s.handles|
      && (s.v.VNone? <==> s'.v.VNone?) && (s'.v.VExit? && s.running ==> s.v.VExit?)
  {
    match s.v
    case VHave(_) =>
    case VJoin(_) =>
    case VJoined(_) =>
    case VSpawn(_) =>
    case VChecked =>
    case _ =>
  }

  lemma StepKeepsPhase(s: State, a: Action)
    requires PhaseInv(s)
    ensures PhaseInv(Step(s, a))
  {
    match a
    case Supervise => SuperviseKeepsPhase(s);
    case Control =>
    case CallStart(n) =>
    case CallStop =>
    case _ => IsWorkerSide(s, a);
  }

  // ---- Handles ------------------------------------------------------------------------------

  /** Slot `i` of the handle table names thread `t`. */
  predicate Names(s: State, i: nat, t: nat) { i < |s.handles| && s.handles[i] == Some(t) }

  ghost predicate HandleInv(s: State)
  {
    && (forall i: nat, t: nat :: Names(s, i, t) ==>
          t < |s.workers| && s.workers[t].slot == i && s.workers[t].period == s.period)
    && (forall t :: 0 <= t < |s.workers| ==> s.workers[t].period <= s.period)
    && (forall t :: 0 <= t < |s.workers| && s.workers[t].period == s.period && !s.workers[t].pc.WDead? ==>
          Names(s, s.workers[t].slot, t))
    && (s.v.VJoin? || s.v.VJoined? || s.v.VSpawn? ==> s.v.id < |s.handles|)
    && (s.v.VJoined? || s.v.VSpawn? ==> s.handles[s.v.id].None?)
  }

  lemma WorkerSideKeepsHandles(s: State, s': State)
    requires HandleInv(s) && s'.handles == s.handles && s'.period == s.period
    requires s'.v == s.v || (s.v.VWaiting? && s'.v.VWake?)
    requires |s'.workers| == |s.workers|
    requires forall t :: 0 <= t < |s.workers| ==>
               && s'.workers[t].slot == s.workers[t].slot && s'.workers[t].period == s.workers[t].period
               && (s.workers[t].pc.WDead? ==> s'.workers[t].pc.WDead?)
    ensures HandleInv(s')
  {
    forall t | 0 <= t < |s'.workers| && s'.workers[t].period == s'.period && !s'.workers[t].pc.WDead?
      ensures Names(s', s'.workers[t].slot, t)
    {
      assert Names(s, s.workers[t].slot, t);
    }
    forall i: nat, t: nat | Names(s', i, t)
      ensures t < |s'.workers| && s'.workers[t].slot == i && s'.workers[t].period == s'.period
    {
      assert Names(s, i, t);
    }
  }

  /** Clearing the handle of a dead thread. */
  lemma JoinKeepsHandles(s: State, s': State, i: nat)
    requires HandleInv(s) && i < |s.handles| && s.handles[i].Some?
    requires s.handles[i].value < |s.workers| && s.workers[s.handles[i].value].pc.WDead?
    requires s'.handles == s.handles[i := None] && s'.workers == s.workers && s'.period == s.period
    requires s'.v == s.v || s'.v == VJoined(i)
    ensures HandleInv(s')
  {
    forall t | 0 <= t < |s'.workers| && s'.workers[t].period == s'.period && !s'.workers[t].pc.WDead?
      ensures Names(s', s'.workers[t].slot, t)
    {
      assert Names(s, s.workers[t].slot, t);
    }
    forall j: nat, t: nat | Names(s', j, t)
      ensures t < |s'.workers| && s'.workers[t].slot == j && s'.workers[t].period == s'.period
    {
      assert Names(s, j, t);
    }
  }

  /** Creating a thread for a slot whose handle is empty or new. */
  lemma SpawnKeepsHandles(s: State, s': State, i: nat)
    requires HandleInv(s) && i <= |s.handles|
    requires i < |s.handles| ==> s.handles[i].None?
    requires s'.workers == s.workers + [Worker(i, s.period, WTop)] && s'.period == s.period
    requires s'.handles == s.handles[..i] + [Some(|s.workers|)] + (if i < |s.handles| then s.handles[i + 1..] else [])
    requires s'.v.VTop? || s'.v.VNone?
    ensures HandleInv(s')
  {
    forall t | 0 <= t < |s'.workers| && s'.workers[t].period == s'.period && !s'.workers[t].pc.WDead?
      ensures Names(s', s'.workers[t].slot, t)
    {
      if t < |s.workers| { assert Names(s, s.workers[t].slot, t); }
    }
    forall j: nat, t: nat | Names(s', j, t)
      ensures t < |s'.workers| && s'.workers[t].slot == j && s'.workers[t].period == s'.period
    {
      if j != i { assert Names(s, j, t); }
    }
  }

  lemma SuperviseKeepsHandles(s: State)
    requires HandleInv(s)
    ensures HandleInv(SuperviseStep(s))
  {
    var s' := SuperviseStep(s);
    match s.v
    case VJoin(id) =>
      if s.handles[id].Some? && s'.v.VJoined? {
        JoinKeepsHandles(s, s', id);
      } else {
        SamePlaceHandles(s, s');
      }
    case VSpawn(id) =>
      assert s.handles[id := Some(|s.workers|)]
          == s.handles[..id] + [Some(|s.workers|)] + s.handles[id + 1..];
      SpawnKeepsHandles(s, s', id);
    case _ =>
      SamePlaceHandles(s, s');
  }

  lemma SamePlaceHandles(s: State, s': State)
    requires HandleInv(s) && s'.handles == s.handles && s'.workers == s.workers && s'.period == s.period
    requires s'.v.VJoin? || s'.v.VJoined? || s'.v.VSpawn? ==> s'.v.id < |s.handles|
    requires s'.v.VJoined? || s'.v.VSpawn? ==> s.handles[s'.v.id].None?
    ensures HandleInv(s')
  {
    forall i: nat, t: nat | Names(s', i, t)
      ensures t < |s'.workers| && s'.workers[t].slot == i && s'.workers[t].period == s'.period
    {
      assert Names(s, i, t);
    }
    forall t | 0 <= t < |s'.workers| && s'.workers[t].period == s'.period && !s'.workers[t].pc.WDead?
      ensures Names(s', s'.workers[t].slot, t)
    {
      assert Names(s, s.workers[t].slot, t);
    }
  }

  lemma ControlKeepsHandles(s: State)
    requires HandleInv(s) && PhaseInv(s)
    ensures HandleInv(ControlStep(s))
  {
    var s' := ControlStep(s);
    match s.k
    case KNotifyTasks(_) => WorkerSideKeepsHandles(s, s');
    case KJoin(i, _) =>
      if s'.handles != s.handles { JoinKeepsHandles(s, s', i); } else { SamePlaceHandles(s, s'); }
    case KStarting(n) =>
      assert forall t :: 0 <= t < |s.workers| ==> s'.workers[t].period < s'.period;
    case KSpawning(n) =>
      if |s.handles| < n { SpawnKeepsHandles(s, s', |s.handles|); } else { SamePlaceHandles(s, s'); }
    case _ => SamePlaceHandles(s, s');
  }

  lemma StepKeepsHandles(s: State, a: Action)
    requires HandleInv(s) && PhaseInv(s)
    ensures HandleInv(Step(s, a))
  {
    match a
    case Supervise => SuperviseKeepsHandles(s);
    case Control => ControlKeepsHandles(s);
    case CallStart(_) => SamePlaceHandles(s, Step(s, a));
    case CallStop => SamePlaceHandles(s, Step(s, a));
    case _ => IsWorkerSide(s, a); WorkerSideKeepsHandles(s, Step(s, a));
  }

  // ---- Together -----------------------------------------------------------------------------

  ghost predicate SafeInv(s: State) { LockInv(s) && PhaseInv(s) && HandleInv(s) }

  lemma StepKeepsSafe(s: State, a: Action)
    requires SafeInv(s)
    ensures SafeInv(Step(s, a))
  {
    StepKeepsPhase(s, a);
    StepKeepsHandles(s, a);
    match a
    case Work(t) => WorkKeepsLock(s, t);
    case _ => OthersKeepLock(s, a);
  }

  lemma {:induction false} ReachableSafe(schedule: seq<Action>)
    ensures SafeInv(Exec(Initial, schedule))
    decreases |schedule|
  {
    if schedule != [] {
      var front := schedule[..|schedule| - 1];
      ReachableSafe(front);
      StepKeepsSafe(Exec(Initial, front), schedule[|schedule| - 1]);
    }
  }

  /** No slot ever has two threads of the same period that have not ended: a worker's old thread is
      joined before its replacement is created. */
  lemma OneThreadPerSlot(schedule: seq<Action>)
    ensures var s := Exec(Initial, schedule);
      forall t, u ::
        && 0 <= t < |s.workers| && 0 <= u < |s.workers|
        && s.workers[t].period == s.workers[u].period == s.period
        && s.workers[t].slot == s.workers[u].slot
        && !s.workers[t].pc.WDead? && !s.workers[u].pc.WDead?
        ==> t == u
  {
    ReachableSafe(schedule);
    var s := Exec(Initial, schedule);
    assert forall t :: 0 <= t < |s.workers| && s.workers[t].period == s.period && !s.workers[t].pc.WDead? ==>
        Names(s, s.workers[t].slot, t);
  }
}

/** The supervised thread pool as a transition system.

    Any number of submitter calls, the worker threads, one supervisor and one controlling thread
    (which calls `start` and `stop`) interleave. A step is one access to shared state: one flag
    load, one lock acquisition, one wait or one critical section whose data only that lock guards.
    A worker may be woken spuriously, and may leave its loop by an escaping exception at any point;
    its exit guard then reports its slot number to the supervisor. Threads are numbered in order of
    creation and never reused, so a thread number names one thread over the whole run. */
module ThreadPool {

  import opened Wrappers

  type Task = nat

  datatype WorkerPc =
    | WTop                // about to load the running flag at the loop head
    | WWantLock
    | WLoop               // holds the task lock, about to test the wait condition
    | WAboutToWait        // holds the task lock, the condition said wait
    | WWaiting            // blocked in the condition variable
    | WWake               // woken, must reacquire the task lock
    | WChecked            // holds the task lock, left the wait loop
    | WHas(task: Task)    // runs a task, no lock
    | WExiting            // left the loop, guard not yet run
    | WPushed             // guard has reported the slot
    | WDead

  datatype Worker = Worker(slot: nat, period: nat, pc: WorkerPc)

  datatype Call = WantsLock(task: Task) | OwesNotify | Done(ok: bool)

  datatype SupervisorPc =
    | VNone               // no supervisor thread, or it has been joined
    | VTop
    | VWantLock
    | VLoop
    | VAboutToWait
    | VWaiting
    | VWake
    | VChecked
    | VHave(id: nat)
    | VJoin(id: nat)
    | VJoined(id: nat)
    | VSpawn(id: nat)
    | VExit

  /** Where the controlling thread is; `restart` is the worker count of a `start` that first stops. */
  datatype ControlPc =
    | KIdle
    | KNotifyTasks(restart: Option<nat>)
    | KNotifyFinished(restart: Option<nat>)
    | KJoin(i: nat, restart: Option<nat>)
    | KJoinSupervisor(restart: Option<nat>)
    | KStarting(n: nat)
    | KSpawning(n: nat)

  /** `accepted` and `dequeued` log the queue's history, `ran` the tasks that threads have run to their
      end and `dropped` those whose thread crashed with them; `period` counts starts. */
  datatype State = State(
    running: bool, maxQueue: nat, numWorkers: nat,
    tasks: seq<Task>, lock: Option<nat>,
    finished: seq<nat>,
    handles: seq<Option<nat>>, workers: seq<Worker>,
    calls: seq<Call>, v: SupervisorPc, k: ControlPc,
    accepted: seq<Task>, dequeued: seq<(nat, Task)>, ran: seq<(nat, Task)>, dropped: seq<(nat, Task)>,
    period: nat)

  datatype Action =
    | Submit(task: Option<Task>)
    | Enqueue(call: nat)
    | Notify(call: nat, waiter: nat)
    | Work(thread: nat)
    | Crash(thread: nat)
    | SpuriousWake(thread: nat)
    | Supervise
    | SupervisorWake
    | CallStart(n: nat)
    | CallStop
    | Control
    | SetMax(max: nat)

  const Initial: State :=
    State(false, 0, 0, [], None, [], [], [], [], VNone, KIdle, [], [], [], [], 0)

  predicate Holds(pc: WorkerPc) { pc.WLoop? || pc.WAboutToWait? || pc.WChecked? }

  predicate SupervisorHolds(v: SupervisorPc) { v.VLoop? || v.VAboutToWait? || v.VChecked? }

  predicate Gone(pc: WorkerPc) { pc.WPushed? || pc.WDead? }

  // ---- Submitting ---------------------------------------------------------------------------

  function SubmitStep(s: State, task: Option<Task>): State
  {
    if task.None? || !s.running then s.(calls := s.calls + [Done(false)])
    else s.(calls := s.calls + [WantsLock(task.value)])
  }

  function EnqueueStep(s: State, c: nat): State
  {
    if c < |s.calls| && s.calls[c].WantsLock? && s.lock.None? then
      if s.maxQueue > 0 && |s.tasks| >= s.maxQueue then s.(calls := s.calls[c := Done(false)])
      else s.(calls := s.calls[c := OwesNotify], tasks := s.tasks + [s.calls[c].task],
              accepted := s.accepted + [s.calls[c].task])
    else s
  }

  predicate IsWaiting(s: State, t: nat) { t < |s.workers| && s.workers[t].pc.WWaiting? }

  ghost predicate NobodyWaits(s: State) { forall t: nat :: !IsWaiting(s, t) }

  function SetPc(s: State, t: nat, pc: WorkerPc): State
    requires t < |s.workers|
  {
    s.(workers := s.workers[t := s.workers[t].(pc := pc)])
  }

  /** `notify_one` wakes some waiter if there is one. */
  ghost function NotifyStep(s: State, c: nat, t: nat): State
  {
    if c < |s.calls| && s.calls[c].OwesNotify? then
      if IsWaiting(s, t) then SetPc(s, t, WWake).(calls := s.calls[c := Done(true)])
      else if NobodyWaits(s) then s.(calls := s.calls[c := Done(true)])
      else s
    else s
  }

  // ---- Workers ------------------------------------------------------------------------------

  function WorkStep(s: State, t: nat): State
  {
    if t >= |s.workers| then s else
    match s.workers[t].pc
    case WTop => SetPc(s, t, if s.running then WWantLock else WExiting)
    case WWantLock => if s.lock.None? then SetPc(s, t, WLoop).(lock := Some(t)) else s
    case WLoop => SetPc(s, t, if s.tasks == [] && s.running then WAboutToWait else WChecked)
    case WAboutToWait => SetPc(s, t, WWaiting).(lock := None)
    case WWaiting => s
    case WWake => if s.lock.None? then SetPc(s, t, WLoop).(lock := Some(t)) else s
    case WChecked =>
      if !s.running then SetPc(s, t, WExiting).(lock := None)
      else if s.tasks == [] then SetPc(s, t, WTop).(lock := None)
      else SetPc(s, t, WHas(s.tasks[0])).(lock := None, tasks := s.tasks[1..],
                                          dequeued := s.dequeued + [(t, s.tasks[0])])
    case WHas(task) => SetPc(s, t, WTop).(ran := s.ran + [(t, task)])
    case WExiting =>
      if SupervisorHolds(s.v) then s
      else SetPc(s, t, WPushed).(finished := s.finished + [s.workers[t].slot],
                                 v := if s.v.VWaiting? then VWake else s.v)
    case WPushed => SetPc(s, t, WDead)
    case WDead => s
  }

  /** An exception escapes: unwinding releases the lock and the guard will run. */
  function CrashStep(s: State, t: nat): State
  {
    if t < |s.workers| && !s.workers[t].pc.WExiting? && !Gone(s.workers[t].pc) then
      SetPc(s, t, WExiting).(
        lock := if s.lock == Some(t) then None else s.lock,
        dropped := if s.workers[t].pc.WHas? then s.dropped + [(t, s.workers[t].pc.task)] else s.dropped)
    else s
  }

  function SpuriousWakeStep(s: State, t: nat): State
  {
    if IsWaiting(s, t) then SetPc(s, t, WWake) else s
  }

  // ---- Supervisor ---------------------------------------------------------------------------

  function Spawn(s: State, slot: nat): State
  {
    s.(workers := s.workers + [Worker(slot, s.period, WTop)])
  }

  function SuperviseStep(s: State): State
  {
    match s.v
    case VNone => s
    case VTop => s.(v := if s.running then VWantLock else VExit)
    case VWantLock => s.(v := VLoop)
    case VLoop => s.(v := if s.finished == [] && s.running then VAboutToWait else VChecked)
    case VAboutToWait => s.(v := VWaiting)
    case VWaiting => s
    case VWake => s.(v := VLoop)
    case VChecked =>
      if !s.running then s.(v := VExit)
      else if s.finished == [] then s.(v := VTop)
      else s.(v := VHave(s.finished[0]), finished := s.finished[1..])
    case VHave(id) =>
      if id >= |s.handles| then s.(v := VTop)
      else if s.handles[id].Some? then s.(v := VJoin(id))
      else s.(v := VJoined(id))
    case VJoin(id) =>
      if id >= |s.handles| || s.handles[id].None? then s.(v := VJoined(id))
      else if s.handles[id].value < |s.workers| && s.workers[s.handles[id].value].pc.WDead? then
        s.(v := VJoined(id), handles := s.handles[id := None])
      else s
    case VJoined(id) => s.(v := if s.running then VSpawn(id) else VExit)
    case VSpawn(id) =>
      if id < |s.handles| then
        Spawn(s, id).(v := VTop, handles := s.handles[id := Some(|s.workers|)])
      else s.(v := VTop)
    case VExit => s
  }

  function SupervisorWakeStep(s: State): State
  {
    if s.v.VWaiting? then s.(v := VWake) else s
  }

  // ---- start and stop -----------------------------------------------------------------------

  function StartStep(s: State, n: nat): State
  {
    if !s.k.KIdle? || n == 0 then s
    else if s.running then s.(running := false, k := KNotifyTasks(Some(n)))
    else s.(k := KStarting(n))
  }

  function StopStep(s: State): State
  {
    if s.k.KIdle? && s.running then s.(running := false, k := KNotifyTasks(None)) else s
  }

  function WakeAll(ws: seq<Worker>): (r: seq<Worker>)
    ensures |r| == |ws|
    ensures forall t :: 0 <= t < |ws| ==>
              r[t] == if ws[t].pc.WWaiting? then ws[t].(pc := WWake) else ws[t]
  {
    seq(|ws|, t requires 0 <= t < |ws| =>
      if ws[t].pc.WWaiting? then ws[t].(pc := WWake) else ws[t])
  }

  function ControlStep(s: State): State
  {
    match s.k
    case KIdle => s
    case KNotifyTasks(restart) => s.(workers := WakeAll(s.workers), k := KNotifyFinished(restart))
    case KNotifyFinished(restart) =>
      s.(v := if s.v.VWaiting? then VWake else s.v, k := KJoin(0, restart))
    case KJoin(i, restart) =>
      if i >= |s.handles| then s.(k := KJoinSupervisor(restart))
      else if s.handles[i].None? then s.(k := KJoin(i + 1, restart))
      else if s.handles[i].value < |s.workers| && s.workers[s.handles[i].value].pc.WDead? then
        s.(k := KJoin(i + 1, restart), handles := s.handles[i := None])
      else s
    case KJoinSupervisor(restart) =>
      if s.v.VExit? || s.v.VNone? then
        s.(v := VNone, k := if restart.Some? then KStarting(restart.value) else KIdle)
      else s
    case KStarting(n) =>
      s.(numWorkers := n, running := true, handles := [], period := s.period + 1,
         k := KSpawning(n))
    case KSpawning(n) =>
      if |s.handles| < n then
        Spawn(s, |s.handles|).(handles := s.handles + [Some(|s.workers|)])
      else s.(v := VTop, k := KIdle)
  }

  ghost function Step(s: State, a: Action): State
  {
    match a
    case Submit(task) => SubmitStep(s, task)
    case Enqueue(c) => EnqueueStep(s, c)
    case Notify(c, t) => NotifyStep(s, c, t)
    case Work(t) => WorkStep(s, t)
    case Crash(t) => CrashStep(s, t)
    case SpuriousWake(t) => SpuriousWakeStep(s, t)
    case Supervise => SuperviseStep(s)
    case SupervisorWake => SupervisorWakeStep(s)
    case CallStart(n) => StartStep(s, n)
    case CallStop => StopStep(s)
    case Control => ControlStep(s)
    case SetMax(max) => s.(maxQueue := max)
  }

  ghost function Exec(s: State, schedule: seq<Action>): State
  {
    if schedule == [] then s
    else Step(Exec(s, schedule[..|schedule| - 1]), schedule[|schedule| - 1])
  }

  // ---- Runs ---------------------------------------------------------------------------------

  ghost predicate Reachable(s: State) { exists schedule :: Exec(Initial, schedule) == s }

  lemma ReachStep(s: State, a: Action)
    requires Reachable(s)
    ensures Reachable(Step(s, a))
  {
    var schedule :| Exec(Initial, schedule) == s;
    ExecSnoc(Initial, schedule, a);
    assert Exec(Initial, schedule + [a]) == Step(s, a);
  }

  lemma ExecSnoc(s: State, schedule: seq<Action>, a: Action)
    ensures Exec(s, schedule + [a]) == Step(Exec(s, schedule), a)
  {
    assert (schedule + [a])[..|schedule|] == schedule;
  }

  predicate Ends(a: Action) { a.CallStart? || a.CallStop? }

  /** Nobody calls `start` or `stop`. */
  ghost predicate WithinPeriod(schedule: seq<Action>)
  {
    forall i :: 0 <= i < |schedule| ==> !Ends(schedule[i])
  }

  /** Some schedule without `start` and `stop` leads from one state to the other. */
  ghost predicate Leads(s: State, s': State)
  {
    exists schedule :: WithinPeriod(schedule) && Exec(s, schedule) == s'
  }

  lemma LeadsNowhere(s: State)
    ensures Leads(s, s)
  {
    assert Exec(s, []) == s;
  }

  lemma LeadsStep(s: State, s': State, a: Action)
    requires Leads(s, s') && !Ends(a)
    ensures Leads(s, Step(s', a))
  {
    var schedule :| WithinPeriod(schedule) && Exec(s, schedule) == s';
    ExecSnoc(s, schedule, a);
    assert WithinPeriod(schedule + [a]);
  }

  lemma {:induction false} LeadsRun(s: State, s': State, schedule: seq<Action>)
    requires Leads(s, s') && WithinPeriod(schedule)
    ensures Leads(s, Exec(s', schedule))
    decreases |schedule|
  {
    if schedule != [] {
      var front := schedule[..|schedule| - 1];
      LeadsRun(s, s', front);
      LeadsStep(s, Exec(s', front), schedule[|schedule| - 1]);
    }
  }

  lemma LeadsTrans(s: State, s': State, s'': State)
    requires Leads(s, s') && Leads(s', s'')
    ensures Leads(s, s'')
  {
    var schedule :| WithinPeriod(schedule) && Exec(s', schedule) == s'';
    LeadsRun(s, s', schedule);
  }

  // ---- Moves --------------------------------------------------------------------------------

  /** An action of a worker, of the supervisor, of a submitter whose call has begun or of the thread
      inside `start` or `stop`. The others are new calls, wakeups and crashes. */
  predicate IsMove(a: Action) { a.Work? || a.Supervise? || a.Control? || a.Enqueue? || a.Notify? }

  ghost predicate CanMove(s: State) { exists a :: IsMove(a) && Step(s, a) != s }

  /** How many moves of a schedule change the state. */
  ghost function Moves(s: State, schedule: seq<Action>): nat
  {
    if schedule == [] then 0
    else
      var front, a := schedule[..|schedule| - 1], schedule[|schedule| - 1];
      Moves(s, front) + if IsMove(a) && Step(Exec(s, front), a) != Exec(s, front) then 1 else 0
  }

  // ---- Infinite runs ------------------------------------------------------------------------

  /** The states, and the action that leads from each to the next. */
  datatype Run = Run(states: nat -> State, actions: nat -> Action)

  ghost predicate IsRun(s: State, r: Run)
  {
    r.states(0) == s && forall n: nat :: Follows(r, n)
  }

  ghost predicate Follows(r: Run, n: nat) { r.states(n + 1) == Step(r.states(n), r.actions(n)) }

  ghost predicate Moved(r: Run, n: nat) { IsMove(r.actions(n)) && r.states(n + 1) != r.states(n) }

  ghost predicate Turn(r: Run, n: nat) { Moved(r, n) || !CanMove(r.states(n)) }

  ghost predicate TurnFrom(r: Run, n: nat) { exists m: nat :: m >= n && Turn(r, m) }

  /** All that is asked of the scheduler: it is never the case that from some moment on there is always
      a thread able to move and none ever does. */
  ghost predicate Fair(r: Run) { forall n: nat :: TurnFrom(r, n) }

  /** The states along a schedule, and the last one ever after. */
  ghost function StateAt(s: State, schedule: seq<Action>, n: nat): State
  {
    if n < |schedule| then Exec(s, schedule[..n]) else Exec(s, schedule)
  }

  function ActionAt(schedule: seq<Action>, n: nat): Action { if n < |schedule| then schedule[n] else Control }

  lemma StateStep(s: State, schedule: seq<Action>, n: nat)
    requires Step(Exec(s, schedule), Control) == Exec(s, schedule)
    ensures StateAt(s, schedule, n + 1) == Step(StateAt(s, schedule, n), ActionAt(schedule, n))
  {
    if n < |schedule| {
      ExecPrefix(s, schedule, n, schedule[..n], schedule[..n + 1]);
      if n + 1 == |schedule| { assert schedule[..n + 1] == schedule; }
    }
  }

  lemma ExecPrefix(s: State, schedule: seq<Action>, n: nat, front: seq<Action>, next: seq<Action>)
    requires n < |schedule| && front == schedule[..n] && next == schedule[..n + 1]
    ensures Exec(s, next) == Step(Exec(s, front), schedule[n])
  {
    assert next == front + [schedule[n]];
    ExecSnoc(s, front, schedule[n]);
  }

  /** A schedule after which nothing can move is the beginning of a fair run that stays there. */
  lemma StuckRun(s: State, schedule: seq<Action>) returns (r: Run)
    requires !CanMove(Exec(s, schedule))
    ensures IsRun(s, r) && Fair(r)
    ensures forall n: nat :: r.states(n) == StateAt(s, schedule, n)
    ensures forall n: nat :: r.actions(n) == ActionAt(schedule, n)
  {
    r := Run((n: nat) => StateAt(s, schedule, n), (n: nat) => ActionAt(schedule, n));
    StuckControl(Exec(s, schedule));
    forall n: nat ensures Follows(r, n) { StateStep(s, schedule, n); }
    assert schedule[..0] == [];
    forall n: nat ensures TurnFrom(r, n) { assert Turn(r, n + |schedule|); }
  }

  lemma StuckControl(s: State)
    requires !CanMove(s)
    ensures Step(s, Control) == s
  {
    assert IsMove(Control);
  }
}

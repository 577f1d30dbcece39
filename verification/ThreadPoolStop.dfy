/** When `stop` returns, and exactly when it can hang.

    `stop` clears the running flag without the task lock, so a worker may have tested the wait
    condition before the flag fell and block after the notification has gone out. A submitter that
    was past its own test of the flag still enqueues its task and notifies, and so wakes it. */
module ThreadPoolStop {
  import opened Wrappers
  import opened ThreadPool
  import opened ThreadPoolSafety
  import opened ThreadPoolProgress
  import opened ThreadPoolSettle
  import opened ThreadPoolStray

  predicate Joining(s: State) { s.k.KJoin? || s.k.KJoinSupervisor? }

  /** `stop` has cleared the flag and not yet returned. */
  predicate Stopping(s: State) { s.k.KNotifyTasks? || s.k.KNotifyFinished? || Joining(s) }

  /** Worker `t` waits for a notification that will not come from `stop`, or is about to wait. */
  predicate Blocked(s: State, t: nat)
  {
    && t < |s.workers|
    && (s.workers[t].pc.WAboutToWait? || (s.workers[t].pc.WWaiting? && !s.k.KNotifyTasks?))
  }

  predicate SupervisorBlocked(s: State)
  {
    s.v.VAboutToWait? || (s.v.VWaiting? && !s.k.KNotifyTasks? && !s.k.KNotifyFinished?)
  }

  /** Somebody is joining, or will join, the thread of slot `i`. */
  predicate Awaited(s: State, i: nat)
  {
    || s.k.KNotifyTasks? || s.k.KNotifyFinished? || (s.k.KJoin? && s.k.i <= i)
    || ((s.v.VHave? || s.v.VJoin?) && s.v.id == i)
  }

  /** Worker `t` is blocked and no submitter need wake it: one that waits for the lock would, and one
      that owes a notification would if the worker already sleeps. */
  ghost predicate Lost(s: State, t: nat)
  {
    Blocked(s, t) && NoneWants(s) && (s.workers[t].pc.WWaiting? ==> NoneOwes(s))
  }

  ghost predicate HoldsUp(s: State, i: nat, t: nat) { Names(s, i, t) && Lost(s, t) && Awaited(s, i) }

  /** Worker `t` will still report its end, which would wake the supervisor. */
  ghost predicate WillReport(s: State, t: nat)
  {
    t < |s.workers| && !Gone(s.workers[t].pc) && !Lost(s, t)
  }

  /** An awaited worker is lost, or the supervisor is blocked and no worker will wake it. */
  ghost predicate CanHang(s: State)
  {
    || (exists i: nat, t: nat :: HoldsUp(s, i, t))
    || (SupervisorBlocked(s) && forall t: nat :: !WillReport(s, t))
  }

  /** Nothing that the pool's own threads, the submitters whose call has begun or the caller of `stop`
      can do changes the state. */
  ghost predicate Hung(s: State)
  {
    && Stopping(s) && SuperviseStep(s) == s && ControlStep(s) == s
    && (forall t: nat :: WorkStep(s, t) == s) && NoneOwes(s) && forall c: nat :: EnqueueStep(s, c) == s
  }

  // ---- How far the threads still have to go -------------------------------------------------

  function Rank(pc: WorkerPc): nat
  {
    match pc
    case WDead => 0
    case WPushed => 1
    case WExiting => 2
    case WTop => 3
    case WChecked => 3
    case WHas(_) => 4
    case WLoop => 4
    case WWantLock => 5
    case WWake => 5
    case WWaiting => 6
    case WAboutToWait => 7
  }

  function StopRank(v: SupervisorPc): nat
  {
    match v
    case VNone => 0
    case VExit => 0
    case VTop => 1
    case VChecked => 1
    case VJoined(_) => 1
    case VLoop => 2
    case VJoin(_) => 2
    case VWantLock => 3
    case VWake => 3
    case VHave(_) => 3
    case VWaiting => 4
    case VAboutToWait => 5
    case VSpawn(_) => 5
  }

  function ControlRank(k: ControlPc, slots: nat): nat
  {
    match k
    case KNotifyTasks(_) => slots + 4
    case KNotifyFinished(_) => slots + 3
    case KJoin(i, _) => if i < slots then slots - i + 2 else 2
    case KJoinSupervisor(_) => 1
    case _ => 0
  }

  function Paths(ws: seq<Worker>): nat
  {
    if ws == [] then 0 else Paths(ws[..|ws| - 1]) + Rank(ws[|ws| - 1].pc)
  }

  /** What the submitters still have to do. */
  function Dues(calls: seq<Call>): nat
  {
    if calls == [] then 0
    else
      Dues(calls[..|calls| - 1])
      + match calls[|calls| - 1] { case WantsLock(_) => 2 case OwesNotify => 1 case Done(_) => 0 }
  }

  function Potential(s: State): nat
  {
    Paths(s.workers) + StopRank(s.v) + ControlRank(s.k, |s.handles|) + Dues(s.calls)
  }

  lemma {:induction false} DuesUpdate(calls: seq<Call>, c: nat, call: Call)
    requires c < |calls|
    ensures (calls[c].WantsLock? && !call.WantsLock?) || (calls[c].OwesNotify? && call.Done?) ==>
              Dues(calls[c := call]) < Dues(calls)
    decreases |calls|
  {
    var n := |calls| - 1;
    if c < n {
      DuesUpdate(calls[..n], c, call);
      assert calls[c := call][..n] == calls[..n][c := call];
    } else {
      assert calls[c := call][..n] == calls[..n];
    }
  }

  lemma DuesSnoc(calls: seq<Call>, ok: bool)
    ensures Dues(calls + [Done(ok)]) == Dues(calls)
  {
    assert (calls + [Done(ok)])[..|calls|] == calls;
  }

  lemma {:induction false} PathsUpdate(ws: seq<Worker>, t: nat, w: Worker)
    requires t < |ws|
    ensures Paths(ws[t := w]) == Paths(ws) - Rank(ws[t].pc) + Rank(w.pc)
    decreases |ws|
  {
    var n := |ws| - 1;
    if t < n {
      PathsUpdate(ws[..n], t, w);
      assert ws[t := w][..n] == ws[..n][t := w];
    } else {
      assert ws[t := w][..n] == ws[..n];
    }
  }

  lemma PathsSnoc(ws: seq<Worker>, w: Worker)
    ensures Paths(ws + [w]) == Paths(ws) + Rank(w.pc)
  {
    assert (ws + [w])[..|ws|] == ws;
  }

  /** With the flag down a worker only goes forward, or stands still. */
  lemma WorkLowersRank(s: State, t: nat)
    requires t < |s.workers| && !s.running
    ensures var s' := WorkStep(s, t);
      && |s'.workers| == |s.workers|
      && (s' == s || (
            Rank(s'.workers[t].pc) + StopRank(s'.v) < Rank(s.workers[t].pc) + StopRank(s.v)))
  {
    match s.workers[t].pc
    case WTop =>
    case WWantLock =>
    case WLoop =>
    case WAboutToWait =>
    case WWake =>
    case WChecked =>
    case WHas(_) =>
    case WExiting =>
    case WPushed =>
    case _ =>
  }

  lemma WorkLowersPotential(s: State, t: nat)
    requires !s.running
    ensures var s' := WorkStep(s, t); s' == s || Potential(s') < Potential(s)
  {
    if t < |s.workers| {
      var s' := WorkStep(s, t);
      WorkMovesOneWorker(s, t);
      WorkTouchesLittle(s, t);
      WorkLowersRank(s, t);
      PathsUpdate(s.workers, t, s'.workers[t]);
    }
  }

  lemma SpawnLowersPotential(s: State, id: nat)
    requires s.v == VSpawn(id)
    ensures Potential(SuperviseStep(s)) < Potential(s)
  {
    PathsSnoc(s.workers, Worker(id, s.period, WTop));
  }

  lemma NoSpawnLowersRank(s: State)
    requires !s.running && !s.v.VSpawn?
    ensures var s' := SuperviseStep(s);
      && s'.workers == s.workers && |s'.handles| == |s.handles| && s'.k == s.k
      && (s' == s || StopRank(s'.v) < StopRank(s.v))
  {
  }

  lemma SuperviseLowersPotential(s: State)
    requires !s.running
    ensures var s' := SuperviseStep(s); s' == s || Potential(s') < Potential(s)
  {
    if s.v.VSpawn? {
      SpawnLowersPotential(s, s.v.id);
    } else {
      NoSpawnLowersRank(s);
    }
  }

  lemma {:induction false} PathsWakeAll(ws: seq<Worker>)
    ensures Paths(WakeAll(ws)) <= Paths(ws)
  {
    if ws != [] {
      var n := |ws| - 1;
      assert WakeAll(ws)[..n] == WakeAll(ws[..n]);
      PathsWakeAll(ws[..n]);
    }
  }

  lemma ControlLowersPotential(s: State)
    requires Stopping(s)
    ensures var s' := ControlStep(s); s' == s || Potential(s') < Potential(s)
  {
    match s.k
    case KNotifyTasks(_) => PathsWakeAll(s.workers);
    case KNotifyFinished(_) =>
    case KJoin(_, _) =>
    case KJoinSupervisor(_) =>
  }

  lemma EnqueueLowersPotential(s: State, c: nat)
    ensures var s' := EnqueueStep(s, c); s' == s || Potential(s') < Potential(s)
  {
    if c < |s.calls| {
      DuesUpdate(s.calls, c, Done(false));
      DuesUpdate(s.calls, c, OwesNotify);
    }
  }

  lemma NotifyLowersPotential(s: State, c: nat, t: nat)
    ensures var s' := NotifyStep(s, c, t); s' == s || Potential(s') < Potential(s)
  {
    if c < |s.calls| { DuesUpdate(s.calls, c, Done(true)); }
    WakeLowersPotential(s, t, WWake);
  }

  lemma OthersKeepPotential(s: State, a: Action)
    requires Stopping(s) && !s.running && !IsMove(a)
    ensures Potential(Step(s, a)) <= Potential(s)
  {
    match a
    case Submit(_) => DuesSnoc(s.calls, false);
    case Crash(t) => WakeLowersPotential(s, t, WExiting);
    case SpuriousWake(t) => WakeLowersPotential(s, t, WWake);
    case SupervisorWake =>
    case _ =>
  }

  lemma WakeLowersPotential(s: State, t: nat, pc: WorkerPc)
    ensures t < |s.workers| ==> Paths(SetPc(s, t, pc).workers) == Paths(s.workers) - Rank(s.workers[t].pc) + Rank(pc)
  {
    if t < |s.workers| { PathsUpdate(s.workers, t, s.workers[t].(pc := pc)); }
  }

  // ---- The bound ----------------------------------------------------------------------------

  /** `stop` has not returned in any state the schedule passes before its last. */
  ghost predicate Through(s: State, schedule: seq<Action>)
  {
    schedule == [] || (Through(s, schedule[..|schedule| - 1]) && Stopping(Exec(s, schedule[..|schedule| - 1])))
  }

  lemma {:induction false} SafeThrough(s: State, schedule: seq<Action>)
    requires SafeInv(s)
    ensures SafeInv(Exec(s, schedule))
    decreases |schedule|
  {
    if schedule != [] {
      var front := schedule[..|schedule| - 1];
      SafeThrough(s, front);
      StepKeepsSafe(Exec(s, front), schedule[|schedule| - 1]);
    }
  }

  lemma StepLowersPotential(s: State, a: Action)
    requires SafeInv(s) && Stopping(s)
    ensures var s' := Step(s, a);
      Potential(s') + (if IsMove(a) && s' != s then 1 else 0) <= Potential(s)
  {
    match a
    case Work(t) => WorkLowersPotential(s, t);
    case Supervise => SuperviseLowersPotential(s);
    case Control => ControlLowersPotential(s);
    case Enqueue(c) => EnqueueLowersPotential(s, c);
    case Notify(c, t) => NotifyLowersPotential(s, c, t);
    case _ => OthersKeepPotential(s, a);
  }

  lemma {:induction false} PathsBounded(ws: seq<Worker>)
    ensures Paths(ws) <= 7 * |ws|
  {
    if ws != [] { PathsBounded(ws[..|ws| - 1]); }
  }

  lemma {:induction false} DuesBounded(calls: seq<Call>)
    ensures Dues(calls) <= 2 * |calls|
  {
    if calls != [] { DuesBounded(calls[..|calls| - 1]); }
  }

  lemma PotentialBounded(s: State)
    ensures Potential(s) <= 7 * |s.workers| + |s.handles| + 2 * |s.calls| + 9
  {
    PathsBounded(s.workers);
    DuesBounded(s.calls);
  }

  /** Until `stop` returns, the threads together make at most `Potential` moves, whatever new calls,
      crashes and wakeups come in between: at most seven for each worker, five for the supervisor, one
      for each slot, two for each call already made, and four more. */
  lemma {:induction false} MovesAreBounded(s: State, schedule: seq<Action>)
    requires SafeInv(s) && Through(s, schedule)
    ensures Moves(s, schedule) + Potential(Exec(s, schedule)) <= Potential(s)
    ensures Moves(s, schedule) <= 7 * |s.workers| + |s.handles| + 2 * |s.calls| + 9
    decreases |schedule|
  {
    PotentialBounded(s);
    if schedule != [] {
      var front := schedule[..|schedule| - 1];
      MovesAreBounded(s, front);
      SafeThrough(s, front);
      StepLowersPotential(Exec(s, front), schedule[|schedule| - 1]);
    }
  }

  // ---- After the notification ---------------------------------------------------------------

  /** At most one worker is blocked, and if it sleeps while tasks are queued, somebody owes a
      notification. */
  ghost predicate AfterNotify(s: State)
  {
    && (forall t: nat, u: nat :: Blocked(s, t) && Blocked(s, u) ==> t == u)
    && ((exists t: nat :: IsWaiting(s, t)) && s.tasks != [] ==> exists c: nat :: Owes(s, c))
  }

  ghost predicate StopInv(s: State)
  {
    SafeInv(s) && (Stopping(s) && !s.k.KNotifyTasks? ==> AfterNotify(s))
  }

  lemma WorkKeepsTasks(s: State, t: nat)
    requires !s.running
    ensures WorkStep(s, t).tasks == s.tasks && WorkStep(s, t).calls == s.calls
  {
    if t < |s.workers| {
      match s.workers[t].pc
      case WChecked =>
      case WExiting =>
      case _ =>
    }
  }

  lemma WorkAfterNotify(s: State, t: nat)
    requires SafeInv(s) && !s.running && !s.k.KNotifyTasks? && AfterNotify(s)
    ensures AfterNotify(WorkStep(s, t))
  {
    var s' := WorkStep(s, t);
    WorkMovesOneWorker(s, t);
    WorkTouchesLittle(s, t);
    WorkKeepsTasks(s, t);
    if t < |s.workers| {
      WorkBlocksNobody(s, t);
      forall u: nat | Blocked(s', u) ensures Blocked(s, u) {}
      if u: nat :| IsWaiting(s', u) && s.tasks != [] {
        assert IsWaiting(s, u);
        var c: nat :| Owes(s, c);
        assert Owes(s', c);
      }
    }
  }

  lemma EnqueueAfterNotify(s: State, c: nat)
    requires AfterNotify(s)
    ensures AfterNotify(EnqueueStep(s, c))
  {
    var s' := EnqueueStep(s, c);
    forall u: nat | Blocked(s', u) ensures Blocked(s, u) {}
    if u: nat :| IsWaiting(s', u) && s'.tasks != [] {
      if s'.tasks != s.tasks {
        assert Owes(s', c);
      } else {
        assert IsWaiting(s, u);
        var d: nat :| Owes(s, d);
        assert Owes(s', d);
      }
    }
  }

  lemma NotifyAfterNotify(s: State, c: nat, t: nat)
    requires AfterNotify(s) && !s.k.KNotifyTasks?
    ensures AfterNotify(NotifyStep(s, c, t))
  {
    var s' := NotifyStep(s, c, t);
    NotifyTouchesLittle(s, c, t);
    forall u: nat | Blocked(s', u) ensures Blocked(s, u) {}
    if u: nat :| IsWaiting(s', u) && s'.tasks != [] {
      assert IsWaiting(s, u) && Blocked(s, u);
      assert IsWaiting(s, t) ==> Blocked(s, t);
      assert s' == s;
    }
  }

  lemma WakingAfterNotify(s: State, a: Action)
    requires AfterNotify(s) && !s.running && !IsMove(a) && !Ends(a)
    ensures AfterNotify(Step(s, a))
  {
    var s' := Step(s, a);
    OthersTouchLittle(s, a);
    forall u: nat | Blocked(s', u) ensures Blocked(s, u) {}
    if u: nat :| IsWaiting(s', u) && s'.tasks != [] {
      assert IsWaiting(s, u);
      var d: nat :| Owes(s, d);
      assert Owes(s', d);
    }
  }

  /** Outside actions wake or crash workers, and add calls that are refused at once. */
  lemma OthersTouchLittle(s: State, a: Action)
    requires !s.running && !IsMove(a) && !Ends(a)
    ensures var s' := Step(s, a);
      && s'.k == s.k && s'.tasks == s.tasks && s'.handles == s.handles && s'.period == s.period
      && (s'.v == s.v || (s.v.VWaiting? && s'.v.VWake?))
      && |s'.workers| == |s.workers|
      && (forall t: nat :: t < |s.workers| && (s'.workers[t].pc.WWaiting? || s'.workers[t].pc.WAboutToWait?) ==>
            s'.workers[t].pc == s.workers[t].pc)
      && (forall t: nat :: t < |s.workers| ==> (Gone(s'.workers[t].pc) <==> Gone(s.workers[t].pc)))
      && (s'.calls == s.calls || s'.calls == s.calls + [Done(false)])
  {
    match a
    case Crash(_) =>
    case SpuriousWake(_) =>
    case Submit(_) =>
    case SupervisorWake =>
    case SetMax(_) =>
  }

  lemma ControlAfterNotify(s: State)
    requires SafeInv(s) && Stopping(s) && (!s.k.KNotifyTasks? ==> AfterNotify(s))
    requires Stopping(ControlStep(s))
    ensures AfterNotify(ControlStep(s))
  {
    var s' := ControlStep(s);
    if s.k.KNotifyTasks? {
      assert forall t: nat :: !IsWaiting(s', t);
      forall t: nat, u: nat | Blocked(s', t) && Blocked(s', u) ensures t == u {
        assert Holds(s.workers[t].pc) && Holds(s.workers[u].pc);
      }
    } else {
      forall u: nat | Blocked(s', u) ensures Blocked(s, u) {}
      if u: nat :| IsWaiting(s', u) && s'.tasks != [] {
        assert IsWaiting(s, u);
        var d: nat :| Owes(s, d);
        assert Owes(s', d);
      }
    }
  }

  lemma SuperviseAfterNotify(s: State)
    requires !s.running && AfterNotify(s)
    ensures AfterNotify(SuperviseStep(s))
  {
    var s' := SuperviseStep(s);
    SuperviseThreadsStay(s);
    forall u: nat | Blocked(s', u) ensures Blocked(s, u) {}
    if u: nat :| IsWaiting(s', u) && s'.tasks != [] {
      assert IsWaiting(s, u);
      var d: nat :| Owes(s, d);
      assert Owes(s', d);
    }
  }

  /** The supervisor leaves the threads alone, except that it may create one. */
  lemma SuperviseThreadsStay(s: State)
    requires !s.running
    ensures var s' := SuperviseStep(s);
      && s'.k == s.k && s'.tasks == s.tasks && s'.calls == s.calls
      && |s.workers| <= |s'.workers|
      && (forall t: nat :: t < |s.workers| ==> s'.workers[t] == s.workers[t])
      && (forall t: nat :: |s.workers| <= t < |s'.workers| ==> s'.workers[t].pc.WTop?)
  {
    match s.v
    case VSpawn(_) =>
    case VHave(_) =>
    case VJoin(_) =>
    case VChecked =>
    case _ =>
  }

  lemma StepKeepsStop(s: State, a: Action)
    requires StopInv(s)
    ensures StopInv(Step(s, a))
  {
    StepKeepsSafe(s, a);
    var s' := Step(s, a);
    if Stopping(s') && !s'.k.KNotifyTasks? {
      StoppingBefore(s, a);
      match a
      case Work(t) => WorkAfterNotify(s, t);
      case Supervise => SuperviseAfterNotify(s);
      case Control => ControlAfterNotify(s);
      case Enqueue(c) => EnqueueAfterNotify(s, c);
      case Notify(c, t) => NotifyAfterNotify(s, c, t);
      case _ => if !Ends(a) { WakingAfterNotify(s, a); }
    }
  }

  /** Only the caller's own step leads past the notification. */
  lemma StoppingBefore(s: State, a: Action)
    requires SafeInv(s) && Stopping(Step(s, a)) && !Step(s, a).k.KNotifyTasks?
    ensures Stopping(s) && !s.running && (!a.Control? ==> !s.k.KNotifyTasks?)
    ensures Ends(a) ==> Step(s, a) == s
  {
    if a.Supervise? {
      SuperviseTouchesLittle(s);
    } else if !a.Control? && !Ends(a) {
      IsWorkerSide(s, a);
    }
  }

  lemma {:induction false} ReachableStop(schedule: seq<Action>)
    ensures StopInv(Exec(Initial, schedule))
    decreases |schedule|
  {
    if schedule != [] {
      var front := schedule[..|schedule| - 1];
      ReachableStop(front);
      StepKeepsStop(Exec(Initial, front), schedule[|schedule| - 1]);
    }
  }

  // ---- Where nothing moves ------------------------------------------------------------------

  /** A worker that cannot move has ended, waits, or wants a lock or the supervisor's attention. */
  lemma HungWorker(s: State, t: nat)
    requires t < |s.workers| && !s.running
    ensures WorkStep(s, t) == s ==>
              match s.workers[t].pc
              case WDead => true
              case WWaiting => true
              case WWantLock => s.lock.Some?
              case WWake => s.lock.Some?
              case WExiting => SupervisorHolds(s.v)
              case _ => false
  {
    var s' := WorkStep(s, t);
    match s.workers[t].pc
    case WTop => assert s'.workers[t].pc == WExiting;
    case WLoop => assert s'.workers[t].pc == WChecked;
    case WAboutToWait => assert s'.workers[t].pc == WWaiting;
    case WChecked => assert s'.workers[t].pc == WExiting;
    case WHas(_) => assert s'.workers[t].pc == WTop;
    case WPushed => assert s'.workers[t].pc == WDead;
    case WWantLock => assert s.lock.None? ==> s'.workers[t].pc == WLoop;
    case WWake => assert s.lock.None? ==> s'.workers[t].pc == WLoop;
    case WExiting => assert !SupervisorHolds(s.v) ==> s'.workers[t].pc == WPushed;
    case _ =>
  }

  lemma HungSupervisor(s: State)
    requires !s.running && SuperviseStep(s) == s
    ensures s.v.VNone? || s.v.VExit? || s.v.VWaiting? || s.v.VJoin?
  {
  }

  lemma HungWorkers(s: State)
    requires SafeInv(s) && Hung(s)
    ensures forall t :: 0 <= t < |s.workers| ==> s.workers[t].pc.WDead? || s.workers[t].pc.WWaiting?
  {
    HungSupervisor(s);
    if s.lock.Some? {
      HungWorker(s, s.lock.value);
    }
    forall t | 0 <= t < |s.workers| ensures s.workers[t].pc.WDead? || s.workers[t].pc.WWaiting? {
      HungWorker(s, t);
    }
  }

  /** With every worker ended or asleep the lock is free, so no call is waiting for it. */
  lemma HungSleepers(s: State)
    requires SafeInv(s) && Hung(s)
    ensures forall t: nat :: IsWaiting(s, t) ==> Lost(s, t)
  {
    HungWorkers(s);
    forall c: nat ensures !Wants(s, c) {
      assert EnqueueStep(s, c) == s;
      WantingMoves(s, c);
    }
  }

  lemma HungCanHang(s: State)
    requires SafeInv(s) && Hung(s)
    ensures CanHang(s)
  {
    HungWorkers(s);
    HungSleepers(s);
    HungSupervisor(s);
    HungIsJoining(s);
    match s.v
    case VWaiting =>
      forall t: nat ensures !WillReport(s, t) { assert IsWaiting(s, t) ==> Lost(s, t); }
    case VJoin(id) =>
      var t := s.handles[id].value;
      assert Names(s, id, t) && IsWaiting(s, t);
      assert HoldsUp(s, id, t);
    case _ =>
      HungController(s);
  }

  lemma HungIsJoining(s: State)
    requires Hung(s)
    ensures Joining(s)
  {
  }

  lemma HungController(s: State)
    requires SafeInv(s) && Joining(s) && Hung(s) && (s.v.VNone? || s.v.VExit?)
    requires forall t :: 0 <= t < |s.workers| ==> s.workers[t].pc.WDead? || s.workers[t].pc.WWaiting?
    requires forall t: nat :: IsWaiting(s, t) ==> Lost(s, t)
    ensures CanHang(s)
  {
    match s.k
    case KJoin(i, restart) =>
      assert ControlStep(s).k == s.k;
      assert i < |s.handles| && s.handles[i].Some?;
      var t := s.handles[i].value;
      assert Names(s, i, t) && IsWaiting(s, t);
      assert HoldsUp(s, i, t);
    case KJoinSupervisor(_) =>
  }

  // ---- The condition is stable --------------------------------------------------------------

  /** What a step may not do for the absence of the condition to last. */
  ghost predicate Calms(s: State, s': State)
  {
    && (forall i: nat, t: nat :: HoldsUp(s', i, t) ==> HoldsUp(s, i, t))
    && (SupervisorBlocked(s') ==>
          SupervisorBlocked(s) && forall t: nat :: WillReport(s, t) ==> WillReport(s', t))
  }

  lemma CalmStays(s: State, s': State)
    requires Calms(s, s') && !CanHang(s)
    ensures !CanHang(s')
  {
  }

  lemma WorkCalms(s: State, t: nat)
    requires !s.running
    ensures Calms(s, WorkStep(s, t))
  {
    var s' := WorkStep(s, t);
    WorkMovesOneWorker(s, t);
    WorkTouchesLittle(s, t);
    WorkKeepsTasks(s, t);
    if t < |s.workers| {
      WorkBlocksNobody(s, t);
      SameCalls(s, s');
      forall u: nat | Lost(s', u) ensures Lost(s, u) { assert Blocked(s, u); }
      forall i: nat, u: nat | HoldsUp(s', i, u) ensures HoldsUp(s, i, u) {
        assert Names(s, i, u);
      }
    }
  }

  lemma SameCalls(s: State, s': State)
    requires s'.calls == s.calls
    ensures (NoneWants(s') <==> NoneWants(s)) && (NoneOwes(s') <==> NoneOwes(s))
  {
    if NoneWants(s') { forall c: nat ensures !Wants(s, c) { assert !Wants(s', c); } }
    if NoneWants(s) { forall c: nat ensures !Wants(s', c) { assert !Wants(s, c); } }
    if NoneOwes(s') { forall c: nat ensures !Owes(s, c) { assert !Owes(s', c); } }
    if NoneOwes(s) { forall c: nat ensures !Owes(s', c) { assert !Owes(s, c); } }
  }

  lemma WorkBlocksNobody(s: State, t: nat)
    requires t < |s.workers| && !s.running
    ensures var s' := WorkStep(s, t);
      && |s'.workers| == |s.workers|
      && (Blocked(s', t) ==> Blocked(s, t))
      && (IsWaiting(s', t) && !s.workers[t].pc.WAboutToWait? ==> s' == s)
      && (Gone(s'.workers[t].pc) && !Gone(s.workers[t].pc) ==> !SupervisorBlocked(s'))
  {
    match s.workers[t].pc
    case WTop =>
    case WWantLock =>
    case WLoop =>
    case WAboutToWait =>
    case WWake =>
    case WChecked =>
    case WHas(_) =>
    case WExiting =>
    case WPushed =>
    case _ =>
  }

  lemma SuperviseCalms(s: State)
    requires !s.running
    ensures Calms(s, SuperviseStep(s))
  {
    var s' := SuperviseStep(s);
    SuperviseThreadsStay(s);
    SameCalls(s, s');
    forall t: nat | Lost(s', t) ensures Lost(s, t) {}
    forall t: nat | Lost(s, t) ensures Lost(s', t) {}
    match s.v
    case VHave(_) => JoinCalms(s, s');
    case VJoin(_) => JoinCalms(s, s');
    case VSpawn(id) => SpawnCalms(s, s', id);
    case VChecked => JoinCalms(s, s');
    case _ =>
      forall i: nat, t: nat | HoldsUp(s', i, t) ensures HoldsUp(s, i, t) { assert Names(s, i, t); }
      forall t: nat | WillReport(s, t) ensures WillReport(s', t) {}
  }

  lemma JoinCalms(s: State, s': State)
    requires !s.running && (s.v.VHave? || s.v.VJoin? || s.v.VChecked?) && s' == SuperviseStep(s)
    requires forall t: nat :: Lost(s', t) ==> Lost(s, t)
    ensures Calms(s, s')
  {
    forall i: nat, t: nat | HoldsUp(s', i, t) ensures HoldsUp(s, i, t) { assert Names(s, i, t); }
  }

  lemma SpawnCalms(s: State, s': State, id: nat)
    requires !s.running && s.v == VSpawn(id) && s' == SuperviseStep(s)
    requires forall t: nat :: Lost(s', t) ==> Lost(s, t)
    ensures Calms(s, s')
  {
    forall i: nat, t: nat | HoldsUp(s', i, t) ensures HoldsUp(s, i, t) {
      if id < |s.handles| { assert t != |s.workers| && i != id; }
      assert Names(s, i, t);
    }
  }

  lemma ControlCalms(s: State)
    requires Stopping(s)
    ensures Calms(s, ControlStep(s))
  {
    var s' := ControlStep(s);
    assert |s'.workers| == |s.workers|;
    SameCalls(s, s');
    forall t: nat | Lost(s', t) ensures Lost(s, t) {}
    forall i: nat, t: nat | HoldsUp(s', i, t) ensures HoldsUp(s, i, t) {
      assert Names(s, i, t);
    }
  }

  /** An accepted task makes its submitter owe a notification, and where a worker sleeps a call is
      refused only if another submitter owes one already. */
  lemma EnqueueCalms(s: State, c: nat)
    requires StopInv(s) && Stopping(s)
    ensures Calms(s, EnqueueStep(s, c))
  {
    var s' := EnqueueStep(s, c);
    if s' != s {
      forall t: nat | Lost(s', t) ensures false {
        if s.workers[t].pc.WWaiting? {
          assert IsWaiting(s, t);
          SleeperIsOwed(s, c);
        }
      }
      forall t: nat | WillReport(s, t) ensures WillReport(s', t) { assert !Lost(s', t); }
    }
  }

  lemma SleeperIsOwed(s: State, c: nat)
    requires AfterNotify(s) && (exists t: nat :: IsWaiting(s, t)) && EnqueueStep(s, c) != s
    ensures !NoneOwes(EnqueueStep(s, c))
  {
    var s' := EnqueueStep(s, c);
    if s'.tasks == s.tasks {
      var d: nat :| Owes(s, d);
      assert Owes(s', d);
    } else {
      assert Owes(s', c);
    }
  }

  /** After the notification at most one worker sleeps, and a notification wakes it. */
  lemma NotifyCalms(s: State, c: nat, t: nat)
    requires StopInv(s) && Stopping(s)
    ensures Calms(s, NotifyStep(s, c, t))
  {
    var s' := NotifyStep(s, c, t);
    if s' != s {
      NotifyTouchesLittle(s, c, t);
      forall d: nat ensures Wants(s', d) <==> Wants(s, d) {}
      forall u: nat | Lost(s', u) ensures Lost(s, u) {
        NotifyBlocksNobody(s, c, t, u);
        forall d: nat ensures !Wants(s, d) { assert !Wants(s', d); }
      }
      forall i: nat, u: nat | HoldsUp(s', i, u) ensures HoldsUp(s, i, u) { assert Names(s, i, u); }
      forall u: nat | WillReport(s, u) ensures WillReport(s', u) {}
    }
  }

  lemma NotifyBlocksNobody(s: State, c: nat, t: nat, u: nat)
    requires StopInv(s) && Stopping(s) && NotifyStep(s, c, t) != s && Blocked(NotifyStep(s, c, t), u)
    ensures Blocked(s, u) && s.workers[u].pc.WAboutToWait?
  {
    if IsWaiting(s, u) {
      assert Blocked(s, u) && !NobodyWaits(s);
      assert IsWaiting(s, t) && Blocked(s, t);
    }
  }

  lemma OthersCalm(s: State, a: Action)
    requires Stopping(s) && !s.running && !IsMove(a)
    ensures Calms(s, Step(s, a))
  {
    var s' := Step(s, a);
    if !Ends(a) {
      OthersTouchLittle(s, a);
      SubmittersStay(s, s');
      forall t: nat | Lost(s', t) ensures Lost(s, t) {}
      forall i: nat, t: nat | HoldsUp(s', i, t) ensures HoldsUp(s, i, t) { assert Names(s, i, t); }
      forall t: nat | WillReport(s, t) ensures WillReport(s', t) {}
    }
  }

  lemma SubmittersStay(s: State, s': State)
    requires s'.calls == s.calls || s'.calls == s.calls + [Done(false)]
    ensures (NoneWants(s') ==> NoneWants(s)) && (NoneOwes(s') ==> NoneOwes(s))
  {
    if NoneWants(s') { forall c: nat ensures !Wants(s, c) { assert !Wants(s', c); } }
    if NoneOwes(s') { forall c: nat ensures !Owes(s, c) { assert !Owes(s', c); } }
  }

  lemma StepKeepsCalm(s: State, a: Action)
    requires StopInv(s) && Stopping(s) && !CanHang(s)
    ensures !CanHang(Step(s, a))
  {
    match a
    case Work(t) => WorkCalms(s, t); CalmStays(s, Step(s, a));
    case Supervise => SuperviseCalms(s); CalmStays(s, Step(s, a));
    case Control => ControlCalms(s); CalmStays(s, Step(s, a));
    case Enqueue(c) => EnqueueCalms(s, c); CalmStays(s, Step(s, a));
    case Notify(c, t) => NotifyCalms(s, c, t); CalmStays(s, Step(s, a));
    case _ => OthersCalm(s, a); CalmStays(s, Step(s, a));
  }

  lemma {:induction false} NeverHangs(s: State, schedule: seq<Action>)
    requires StopInv(s) && Through(s, schedule) && !CanHang(s)
    ensures StopInv(Exec(s, schedule)) && !CanHang(Exec(s, schedule))
    decreases |schedule|
  {
    if schedule != [] {
      var front := schedule[..|schedule| - 1];
      NeverHangs(s, front);
      StepKeepsStop(Exec(s, front), schedule[|schedule| - 1]);
      StepKeepsCalm(Exec(s, front), schedule[|schedule| - 1]);
    }
  }

  // ---- The condition leads to a hang --------------------------------------------------------

  lemma WorkKeepsHang(s: State, t: nat)
    requires !s.running && CanHang(s) && Joining(s) && NoneOwes(s)
    ensures CanHang(WorkStep(s, t))
  {
    var s' := WorkStep(s, t);
    WorkMovesOneWorker(s, t);
    WorkTouchesLittle(s, t);
    WorkKeepsTasks(s, t);
    if t < |s.workers| {
      SameCalls(s, s');
      WorkKeepsBlocked(s, t);
      if i: nat, u: nat :| HoldsUp(s, i, u) {
        assert Names(s', i, u) && Lost(s', u);
        assert HoldsUp(s', i, u);
      } else {
        assert !WillReport(s, t);
        forall u: nat ensures !WillReport(s', u) { assert !WillReport(s, u); }
      }
    }
  }

  lemma WorkKeepsBlocked(s: State, t: nat)
    requires t < |s.workers| && !s.running && Joining(s)
    ensures var s' := WorkStep(s, t);
      && |s'.workers| == |s.workers|
      && (Blocked(s, t) ==> Blocked(s', t))
      && (Gone(s.workers[t].pc) ==> Gone(s'.workers[t].pc))
      && (Blocked(s, t) || Gone(s.workers[t].pc) ==> s'.v == s.v)
  {
    match s.workers[t].pc
    case WTop =>
    case WWantLock =>
    case WLoop =>
    case WAboutToWait =>
    case WWake =>
    case WChecked =>
    case WHas(_) =>
    case WExiting =>
    case WPushed =>
    case _ =>
  }

  lemma SuperviseKeepsHang(s: State)
    requires SafeInv(s) && !s.running && CanHang(s) && Joining(s)
    ensures CanHang(SuperviseStep(s))
  {
    var s' := SuperviseStep(s);
    SuperviseThreadsStay(s);
    SameCalls(s, s');
    forall t: nat | Lost(s, t) ensures Lost(s', t) {}
    if i: nat, t: nat :| HoldsUp(s, i, t) {
      SuperviseKeepsHoldUp(s, i, t);
    } else {
      assert s.v.VWaiting? || s.v.VAboutToWait?;
      forall t: nat ensures !WillReport(s', t) { assert !WillReport(s, t); }
    }
  }

  lemma SuperviseKeepsHoldUp(s: State, i: nat, t: nat)
    requires SafeInv(s) && !s.running && HoldsUp(s, i, t) && Lost(SuperviseStep(s), t)
    ensures HoldsUp(SuperviseStep(s), i, t)
  {
    match s.v
    case VHave(_) =>
    case VJoin(_) =>
    case VSpawn(_) =>
    case VChecked =>
    case _ =>
  }

  lemma ControlKeepsHang(s: State)
    requires SafeInv(s) && Stopping(s) && CanHang(s)
    ensures CanHang(ControlStep(s)) && Stopping(ControlStep(s))
  {
    var s' := ControlStep(s);
    SameCalls(s, s');
    if i: nat, t: nat :| HoldsUp(s, i, t) {
      assert |s'.workers| == |s.workers| && Names(s', i, t) && Lost(s', t);
      assert HoldsUp(s', i, t);
    } else {
      assert s'.v == s.v;
      forall t: nat ensures !WillReport(s', t) { assert !WillReport(s, t); }
    }
  }

  /** A submitter that enqueues was waiting for the lock, so no worker is lost: all have ended. */
  lemma EnqueueKeepsHang(s: State, c: nat)
    requires CanHang(s) && Joining(s)
    ensures CanHang(EnqueueStep(s, c))
  {
    var s' := EnqueueStep(s, c);
    if s' != s {
      assert Wants(s, c);
      forall t: nat ensures !WillReport(s', t) { assert !WillReport(s, t); }
    }
  }

  /** A worker lost while somebody owes a notification is not asleep yet. */
  lemma NotifyKeepsHang(s: State, c: nat, t: nat)
    requires CanHang(s) && Stopping(s) && Owes(s, c)
    ensures CanHang(NotifyStep(s, c, t)) && Stopping(NotifyStep(s, c, t))
  {
    var s' := NotifyStep(s, c, t);
    NotifyTouchesLittle(s, c, t);
    forall u: nat | Lost(s, u) ensures Lost(s', u) {
      forall d: nat ensures !Wants(s', d) { assert !Wants(s, d); }
    }
    if i: nat, u: nat :| HoldsUp(s, i, u) {
      assert Names(s', i, u);
      assert HoldsUp(s', i, u);
    } else {
      assert !WillReport(s, t);
      forall u: nat ensures !WillReport(s', u) { assert !WillReport(s, u); }
    }
  }

  /** Without a wakeup or a crash from outside, the condition never goes away. */
  lemma MoveKeepsHang(s: State, a: Action)
    requires SafeInv(s) && Joining(s) && CanHang(s) && NoneOwes(s) && IsMove(a)
    ensures CanHang(Step(s, a)) && Joining(Step(s, a))
  {
    match a
    case Work(t) =>
      WorkKeepsHang(s, t);
      WorkTouchesLittle(s, t);
    case Supervise =>
      SuperviseKeepsHang(s);
      SuperviseTouchesLittle(s);
    case Control => ControlKeepsHang(s);
    case Enqueue(c) => EnqueueKeepsHang(s, c);
    case Notify(c, _) => assert !Owes(s, c);
  }

  lemma {:induction false} ExecCons(s: State, a: Action, rest: seq<Action>)
    ensures Exec(s, [a] + rest) == Exec(Step(s, a), rest)
    decreases |rest|
  {
    var schedule := [a] + rest;
    if rest == [] {
      assert schedule[..0] == [];
      assert Exec(s, schedule[..0]) == s;
    } else {
      var n := |rest|;
      assert schedule[..n] == [a] + rest[..n - 1];
      ExecCons(s, a, rest[..n - 1]);
    }
  }

  /** Before its n-th action `stop` has not returned. */
  ghost predicate PendingAt(s: State, schedule: seq<Action>, n: nat)
    requires n < |schedule|
  {
    Stopping(Exec(s, schedule[..n]))
  }

  ghost predicate Pending(s: State, schedule: seq<Action>)
  {
    forall n: nat :: n < |schedule| ==> PendingAt(s, schedule, n)
  }

  lemma ConsPendingAt(s: State, a: Action, rest: seq<Action>, n: nat)
    requires Stopping(s) && n <= |rest|
    requires n > 0 ==> PendingAt(Step(s, a), rest, n - 1)
    ensures PendingAt(s, [a] + rest, n)
  {
    var schedule := [a] + rest;
    if n == 0 {
      assert schedule[..0] == [];
    } else {
      assert schedule[..n] == [a] + rest[..n - 1];
      ExecCons(s, a, rest[..n - 1]);
    }
  }

  lemma PendingCons(s: State, a: Action, rest: seq<Action>)
    requires Stopping(s) && Pending(Step(s, a), rest)
    ensures Pending(s, [a] + rest)
  {
    forall n: nat | n < |[a] + rest| ensures PendingAt(s, [a] + rest, n) {
      ConsPendingAt(s, a, rest, n);
    }
  }

  lemma {:induction false} PendingThrough(s: State, schedule: seq<Action>, n: nat, front: seq<Action>)
    requires Pending(s, schedule) && n <= |schedule| && front == schedule[..n]
    ensures Through(s, front)
    decreases n
  {
    if n > 0 {
      PendingThrough(s, schedule, n - 1, schedule[..n - 1]);
      assert front[..n - 1] == schedule[..n - 1];
      assert PendingAt(s, schedule, n - 1);
    }
  }

  /** Letting `stop` notify, and then every thread run as far as it can, ends with `stop` hanging. */
  lemma {:induction false} HangsAtLast(s: State) returns (schedule: seq<Action>)
    requires SafeInv(s) && Stopping(s) && CanHang(s)
    ensures Pending(s, schedule) && Hung(Exec(s, schedule))
    decreases Potential(s)
  {
    if Hung(s) {
      schedule := [];
    } else {
      var a := NextMove(s);
      StepLowersPotential(s, a);
      StepKeepsSafe(s, a);
      var rest := HangsAtLast(Step(s, a));
      schedule := [a] + rest;
      ExecCons(s, a, rest);
      PendingCons(s, a, rest);
    }
  }

  lemma NextMove(s: State) returns (a: Action)
    requires SafeInv(s) && Stopping(s) && CanHang(s) && !Hung(s)
    ensures IsMove(a) && Step(s, a) != s && CanHang(Step(s, a)) && Stopping(Step(s, a))
  {
    if c: nat :| Owes(s, c) {
      a := SomeNotify(s, c);
      NotifyKeepsHang(s, c, a.waiter);
    } else if Joining(s) {
      a := SomeMove(s);
      MoveKeepsHang(s, a);
    } else {
      a := Control;
      ControlKeepsHang(s);
      assert Step(s, a).k != s.k;
    }
  }

  lemma SomeNotify(s: State, c: nat) returns (a: Action)
    requires Owes(s, c)
    ensures a.Notify? && a.call == c && Step(s, a) != s
  {
    if t: nat :| IsWaiting(s, t) { a := Notify(c, t); } else { a := Notify(c, 0); }
    assert Step(s, a).calls[c] != s.calls[c];
  }

  lemma SomeMove(s: State) returns (a: Action)
    requires Stopping(s) && !Hung(s)
    ensures IsMove(a) && Step(s, a) != s
  {
    if SuperviseStep(s) != s {
      a := Supervise;
    } else if ControlStep(s) != s {
      a := Control;
    } else if t: nat :| WorkStep(s, t) != s {
      a := Work(t);
    } else if c: nat :| Owes(s, c) {
      a := SomeNotify(s, c);
    } else {
      var c: nat :| EnqueueStep(s, c) != s;
      a := Enqueue(c);
    }
  }

  ghost predicate HangsAfter(s: State, schedule: seq<Action>)
  {
    Through(s, schedule) && Hung(Exec(s, schedule))
  }

  lemma NotHung(s: State)
    requires SafeInv(s) && Stopping(s) && !CanHang(s)
    ensures !Hung(s)
  {
    if Hung(s) { HungCanHang(s); }
  }

  /** Where the condition does not hold, every schedule that has not let `stop` return yet leaves
      some thread able to move. */
  lemma AlwaysAMoveLeft(s: State, schedule: seq<Action>)
    requires StopInv(s) && !CanHang(s) && Through(s, schedule) && Stopping(Exec(s, schedule))
    ensures CanMove(Exec(s, schedule)) && !Hung(Exec(s, schedule))
  {
    NeverHangs(s, schedule);
    NotHung(Exec(s, schedule));
    var a := SomeMove(Exec(s, schedule));
  }

  /** From any reachable state in which `stop` is under way: some schedule leaves it hanging, with no
      move left to the pool's threads, to the submitters or to the caller, exactly if an awaited
      worker is lost, or the supervisor is blocked and no worker is left to wake it. */
  lemma StopCanHangIff(s: State)
    requires StopInv(s) && Stopping(s)
    ensures (exists schedule :: HangsAfter(s, schedule)) <==> CanHang(s)
  {
    if CanHang(s) {
      var schedule := HangsAtLast(s);
      PendingThrough(s, schedule, |schedule|, schedule);
      assert HangsAfter(s, schedule);
    } else {
      forall schedule ensures !HangsAfter(s, schedule) {
        if Through(s, schedule) && Stopping(Exec(s, schedule)) {
          AlwaysAMoveLeft(s, schedule);
        }
      }
    }
  }

  // ---- From the call ------------------------------------------------------------------------

  /** A worker of this period has tested the wait condition and not yet gone to sleep. */
  predicate MidWait(s: State, t: nat)
  {
    t < |s.workers| && s.workers[t].period == s.period && s.workers[t].pc.WAboutToWait?
  }

  /** A `stop` called now may miss that worker, and no submitter will wake it. */
  ghost predicate CallMayHang(s: State) { (exists t: nat :: MidWait(s, t)) && NoneWants(s) }

  lemma CallCanHangIff(s: State)
    requires PoolInv(s) && Up(s)
    ensures Stopping(Step(s, CallStop)) && StopInv(Step(s, CallStop))
    ensures CanHang(Step(s, CallStop)) <==> CallMayHang(s)
  {
    var s' := Step(s, CallStop);
    StepKeepsSafe(s, CallStop);
    SameCalls(s, s');
    if CallMayHang(s) {
      var t: nat :| MidWait(s, t);
      assert Names(s, s.workers[t].slot, t);
      assert HoldsUp(s', s.workers[t].slot, t);
    }
    if CanHang(s') {
      if i: nat, t: nat :| HoldsUp(s', i, t) {
        assert Names(s, i, t) && MidWait(s, t);
      } else {
        SomebodyMidWait(s, s');
      }
    }
  }

  /** If nobody would report, the thread of slot 0, which has not ended, is about to sleep. */
  lemma SomebodyMidWait(s: State, s': State)
    requires PoolInv(s) && Up(s) && s' == Step(s, CallStop)
    requires SupervisorBlocked(s') && forall t: nat :: !WillReport(s', t)
    ensures CallMayHang(s)
  {
    SameCalls(s, s');
    assert Accounted(s, 0) && Live(s, 0);
    var t := s.handles[0].value;
    assert Names(s, 0, t) && !WillReport(s', t);
    assert MidWait(s, t);
  }

  /** In every reachable state in which `stop` can be called on a running pool: some schedule from the
      call on leaves it hanging exactly if at that moment a worker of this period is between its
      test of the wait condition and the wait, and no submitter is waiting for the task lock. */
  lemma StopCallCanHangIff(prefix: seq<Action>)
    requires Up(Exec(Initial, prefix))
    ensures var s := Exec(Initial, prefix);
      (exists schedule :: HangsAfter(Step(s, CallStop), schedule)) <==>
      (exists t: nat :: MidWait(s, t)) && NoneWants(s)
  {
    ReachablePool(prefix);
    CallCanHangIff(Exec(Initial, prefix));
    StopCanHangIff(Step(Exec(Initial, prefix), CallStop));
  }

  // ---- `stop` returns -----------------------------------------------------------------------

  ghost predicate Returns(r: Run) { exists n: nat :: !Stopping(r.states(n)) }

  ghost predicate Sound(s: State) { StopInv(s) && !CanHang(s) }

  lemma SoundStep(s: State, a: Action, s': State)
    requires Sound(s) && Stopping(s) && s' == Step(s, a)
    ensures Sound(s') && Potential(s') + (if IsMove(a) && s' != s then 1 else 0) <= Potential(s)
  {
    StepKeepsStop(s, a);
    StepKeepsCalm(s, a);
    StepLowersPotential(s, a);
  }

  /** Between two moments of a run in which `stop` does not return. */
  lemma {:induction false} KeepsUntil(s: State, r: Run, n: nat, m: nat)
    requires IsRun(s, r) && n <= m && Sound(r.states(n)) && !Returns(r)
    ensures Sound(r.states(m)) && Potential(r.states(m)) <= Potential(r.states(n))
    decreases m - n
  {
    if n < m {
      KeepsUntil(s, r, n, m - 1);
      SoundNext(s, r, m - 1);
    }
  }

  lemma SoundNext(s: State, r: Run, n: nat)
    requires IsRun(s, r) && Sound(r.states(n)) && !Returns(r)
    ensures Stopping(r.states(n)) && Sound(r.states(n + 1))
    ensures Potential(r.states(n + 1)) + (if Moved(r, n) then 1 else 0) <= Potential(r.states(n))
  {
    assert Follows(r, n) && Stopping(r.states(n));
    SoundStep(r.states(n), r.actions(n), r.states(n + 1));
  }

  lemma {:induction false} ReturnsFrom(s: State, r: Run, n: nat)
    requires IsRun(s, r) && Sound(r.states(n)) && Fair(r)
    ensures Returns(r)
    decreases Potential(r.states(n))
  {
    if !Returns(r) {
      var m := NextMoved(s, r, n);
      ReturnsFrom(s, r, m + 1);
    }
  }

  /** While `stop` has not returned, a fair run makes another move. */
  lemma NextMoved(s: State, r: Run, n: nat) returns (m: nat)
    requires IsRun(s, r) && Sound(r.states(n)) && Fair(r) && !Returns(r)
    ensures Sound(r.states(m + 1)) && Potential(r.states(m + 1)) < Potential(r.states(n))
  {
    assert TurnFrom(r, n);
    m :| m >= n && Turn(r, m);
    KeepsUntil(s, r, n, m);
    SoundNext(s, r, m);
    SoundMoves(r.states(m));
  }

  lemma SoundMoves(s: State)
    requires Sound(s) && Stopping(s)
    ensures CanMove(s)
  {
    NotHung(s);
    var a := SomeMove(s);
  }

  lemma HungRun(s: State, schedule: seq<Action>) returns (r: Run)
    requires Pending(s, schedule) && Hung(Exec(s, schedule))
    ensures IsRun(s, r) && Fair(r) && !Returns(r)
  {
    HungCannotMove(Exec(s, schedule));
    r := StuckRun(s, schedule);
    forall n: nat ensures Stopping(r.states(n)) {
      if n < |schedule| { assert PendingAt(s, schedule, n); }
    }
  }

  lemma HungCannotMove(s: State)
    requires Hung(s)
    ensures !CanMove(s)
  {
    forall a | IsMove(a) ensures Step(s, a) == s {
      match a
      case Work(t) => assert WorkStep(s, t) == s;
      case Supervise =>
      case Control =>
      case Enqueue(c) => assert EnqueueStep(s, c) == s;
      case Notify(c, _) => assert !Owes(s, c);
    }
  }

  ghost predicate AlwaysReturns(s: State) { forall r :: IsRun(s, r) && Fair(r) ==> Returns(r) }

  /** From any reachable state in which `stop` is under way, `stop` returns in every fair run, whatever
      new calls, crashes and wakeups come in between, exactly if it cannot hang. */
  lemma StopReturnsIff(s: State)
    requires StopInv(s) && Stopping(s)
    ensures AlwaysReturns(s) <==> !CanHang(s)
  {
    if CanHang(s) {
      var schedule := HangsAtLast(s);
      var r := HungRun(s, schedule);
    } else {
      forall r | IsRun(s, r) && Fair(r) ensures Returns(r) {
        ReturnsFrom(s, r, 0);
      }
    }
  }

  /** In every reachable state in which `stop` can be called on a running pool, it returns in every
      fair run exactly if no worker of this period is between its test and its wait, or a submitter
      is waiting for the task lock. */
  lemma StopCallReturnsIff(prefix: seq<Action>)
    requires Up(Exec(Initial, prefix))
    ensures var s := Exec(Initial, prefix);
      AlwaysReturns(Step(s, CallStop)) <==>
      (forall t: nat :: !MidWait(s, t)) || (exists c: nat :: Wants(s, c))
  {
    ReachablePool(prefix);
    CallCanHangIff(Exec(Initial, prefix));
    StopReturnsIff(Step(Exec(Initial, prefix), CallStop));
  }

  // ---- A run in which it does not -----------------------------------------------------------

  /** The only worker has tested the wait condition and not yet gone to sleep. */
  const BeforeWait: State := Started.(workers := [Worker(0, 1, WAboutToWait)], lock := Some(0))

  /** A run after which `stop`, if called now, can hang: `start(1)` and three steps of the worker. */
  lemma StopCanHangInARun()
    ensures exists prefix ::
      && Exec(Initial, prefix) == BeforeWait
      && exists schedule :: HangsAfter(Step(Exec(Initial, prefix), CallStop), schedule)
  {
    Reach1();
    var s := Started;
    ReachStep(s, Work(0));
    s := Step(s, Work(0));
    ReachStep(s, Work(0));
    s := Step(s, Work(0));
    ReachStep(s, Work(0));
    s := Step(s, Work(0));
    assert s == BeforeWait;
    var prefix :| Exec(Initial, prefix) == BeforeWait;
    assert MidWait(BeforeWait, 0);
    StopCallCanHangIff(prefix);
  }

  /** The same moment, but a submitter has passed the test of the flag: `stop` returns. */
  lemma WaitingSubmitterRescuesStop()
    ensures exists prefix ::
      && MidWait(Exec(Initial, prefix), 0)
      && AlwaysReturns(Step(Exec(Initial, prefix), CallStop))
  {
    StopCanHangInARun();
    var prefix :| Exec(Initial, prefix) == BeforeWait;
    ExecSnoc(Initial, prefix, Submit(Some(7)));
    var s := Exec(Initial, prefix + [Submit(Some(7))]);
    assert MidWait(s, 0) && Wants(s, 0);
    StopCallReturnsIff(prefix + [Submit(Some(7))]);
  }
}

/** What keeps queued tasks served within a period, that no slot is forgotten, and that the supervisor
    does not sleep on a report. */
module ThreadPoolProgress {
  import opened Wrappers
  import opened ThreadPool
  import opened ThreadPoolSafety

  // ---- No stuck queue -----------------------------------------------------------------------

  /** Thread `t` is in its loop and not blocked in the condition variable. */
  predicate Awake(s: State, t: nat)
  {
    t < |s.workers| && !s.workers[t].pc.WWaiting? && !s.workers[t].pc.WExiting? && !Gone(s.workers[t].pc)
  }

  predicate Owes(s: State, c: nat) { c < |s.calls| && s.calls[c].OwesNotify? }

  /** Call `c` has passed its test of the flag and not yet taken the lock. */
  predicate Wants(s: State, c: nat) { c < |s.calls| && s.calls[c].WantsLock? }

  ghost predicate NoneOwes(s: State) { forall c: nat :: !Owes(s, c) }

  ghost predicate NoneWants(s: State) { forall c: nat :: !Wants(s, c) }

  /** Slot `i` has no thread, or one on its way out. */
  predicate Vacant(s: State, i: nat)
  {
    && i < |s.handles|
    && (s.handles[i].None?
        || (s.handles[i].value < |s.workers|
            && (s.workers[s.handles[i].value].pc.WExiting? || Gone(s.workers[s.handles[i].value].pc))))
  }

  predicate StartPending(s: State) { s.k.KSpawning? && |s.handles| < s.k.n }

  ghost predicate Served(s: State)
  {
    || (exists t: nat :: Awake(s, t))
    || (exists c: nat :: Owes(s, c))
    || (exists i: nat :: Vacant(s, i))
    || StartPending(s)
  }

  ghost predicate NotStuck(s: State) { s.running && s.tasks != [] ==> Served(s) }

  /** When nobody waits in a running pool, some slot's thread is in its loop or on its way out. */
  lemma NobodyWaitingIsServed(s: State)
    requires SafeInv(s) && s.running && NobodyWaits(s)
    ensures Served(s)
  {
    if !StartPending(s) {
      assert |s.handles| >= 1;
      if s.handles[0].Some? {
        var t := s.handles[0].value;
        assert Names(s, 0, t) && !IsWaiting(s, t);
        assert Awake(s, t) || Vacant(s, 0);
      } else {
        assert Vacant(s, 0);
      }
    }
  }

  lemma VacantStays(s: State, s': State, i: nat)
    requires Vacant(s, i) && s'.handles == s.handles && |s'.workers| == |s.workers|
    requires forall t :: 0 <= t < |s.workers| && (s.workers[t].pc.WExiting? || Gone(s.workers[t].pc)) ==>
               s'.workers[t].pc.WExiting? || Gone(s'.workers[t].pc)
    ensures Vacant(s', i)
  {
  }

  /** A worker leaves its loop, or blocks, only when the pool is stopping or the queue is empty. */
  lemma WorkStaysAwake(s: State, t: nat)
    requires LockInv(s) && t < |s.workers|
    ensures var s', p := WorkStep(s, t), s.workers[t].pc;
      && s'.running == s.running
      && (p.WExiting? || Gone(p) ==> s'.workers[t].pc.WExiting? || Gone(s'.workers[t].pc))
      && (s'.running && s'.tasks != [] && Awake(s, t) ==> s.tasks != [] && Awake(s', t))
      && (s'.tasks != [] ==> s.tasks != [])
  {
    match s.workers[t].pc
    case WTop =>
    case WLoop =>
    case WAboutToWait =>
    case WChecked =>
    case WExiting =>
    case _ =>
  }

  lemma WorkNotStuck(s: State, t: nat)
    requires SafeInv(s) && NotStuck(s)
    ensures NotStuck(WorkStep(s, t))
  {
    var s' := WorkStep(s, t);
    if t < |s.workers| && s'.running && s'.tasks != [] {
      WorkMovesOneWorker(s, t);
      WorkTouchesLittle(s, t);
      WorkStaysAwake(s, t);
      if u: nat :| Awake(s, u) {
        assert Awake(s', u);
      } else if c: nat :| Owes(s, c) {
        assert Owes(s', c);
      } else if i: nat :| Vacant(s, i) {
        VacantStays(s, s', i);
      }
    }
  }

  /** A worker created in an earlier period that has not left its loop. */
  predicate Stray(s: State, t: nat)
  {
    && t < |s.workers| && s.workers[t].period < s.period
    && !s.workers[t].pc.WExiting? && !Gone(s.workers[t].pc)
  }

  ghost predicate NoStray(s: State) { forall t: nat :: !Stray(s, t) }

  /** A crash of a worker of this period leaves its slot vacant. */
  lemma CrashNotStuck(s: State, t: nat)
    requires SafeInv(s) && NotStuck(s) && NoStray(s)
    ensures NotStuck(CrashStep(s, t))
  {
    var s' := CrashStep(s, t);
    if s' != s && s'.running && s'.tasks != [] {
      var w := s.workers[t];
      assert !Stray(s, t);
      assert Names(s, w.slot, t);
      assert Vacant(s', w.slot);
    }
  }

  lemma WakeNotStuck(s: State, t: nat)
    requires NotStuck(s)
    ensures NotStuck(SpuriousWakeStep(s, t))
  {
    var s' := SpuriousWakeStep(s, t);
    if IsWaiting(s, t) {
      assert Awake(s', t);
    }
  }

  lemma NotifyNotStuck(s: State, c: nat, t: nat)
    requires SafeInv(s) && NotStuck(s)
    ensures NotStuck(NotifyStep(s, c, t))
  {
    var s' := NotifyStep(s, c, t);
    if c < |s.calls| && s.calls[c].OwesNotify? {
      if IsWaiting(s, t) {
        assert Awake(s', t);
      } else if NobodyWaits(s) && s'.running {
        forall u: nat ensures !IsWaiting(s', u) { assert !IsWaiting(s, u); }
        OthersKeepLock(s, Notify(c, t));
        StepKeepsPhase(s, Notify(c, t));
        StepKeepsHandles(s, Notify(c, t));
        NobodyWaitingIsServed(s');
      }
    }
  }

  lemma EnqueueNotStuck(s: State, c: nat)
    requires NotStuck(s)
    ensures NotStuck(EnqueueStep(s, c))
  {
    var s' := EnqueueStep(s, c);
    if s'.running && s'.tasks != [] {
      if s'.tasks != s.tasks {
        assert Owes(s', c);
      } else if s' != s {
        ServedElsewhere(s, s', c);
      }
    }
  }

  lemma SubmitNotStuck(s: State, task: Option<Task>)
    requires NotStuck(s)
    ensures NotStuck(SubmitStep(s, task))
  {
    if s.running && s.tasks != [] {
      ServedElsewhere(s, SubmitStep(s, task), |s.calls|);
    }
  }

  /** Changing one call that owes nothing, or the supervisor's place, leaves the queue served. */
  lemma ServedElsewhere(s: State, s': State, c: nat)
    requires Served(s) && s'.workers == s.workers && s'.handles == s.handles && s'.k == s.k
    requires |s.calls| <= |s'.calls|
    requires forall d: nat :: d != c && Owes(s, d) ==> Owes(s', d)
    requires !Owes(s, c)
    ensures Served(s')
  {
    if u: nat :| Awake(s, u) {
      assert Awake(s', u);
    } else if d: nat :| Owes(s, d) {
      assert Owes(s', d);
    } else if i: nat :| Vacant(s, i) {
      assert Vacant(s', i);
    }
  }

  lemma SuperviseNotStuck(s: State)
    requires SafeInv(s) && NotStuck(s)
    ensures NotStuck(SuperviseStep(s))
  {
    var s' := SuperviseStep(s);
    if s'.running && s'.tasks != [] {
      match s.v
      case VSpawn(id) =>
        assert Awake(s', |s.workers|);
      case VJoin(id) =>
        if s'.handles != s.handles {
          assert Vacant(s', id);
        } else {
          ServedElsewhere(s, s', |s.calls|);
        }
      case VExit =>
      case _ =>
        ServedElsewhere(s, s', |s.calls|);
    }
  }

  lemma ControlNotStuck(s: State)
    requires SafeInv(s) && NotStuck(s)
    ensures NotStuck(ControlStep(s))
  {
    var s' := ControlStep(s);
    if s'.running && s'.tasks != [] {
      match s.k
      case KStarting(n) =>
        assert StartPending(s');
      case KSpawning(n) =>
        if |s.handles| < n {
          assert Awake(s', |s.workers|);
        } else if t: nat :| Awake(s, t) {
          assert Awake(s', t);
        } else if c: nat :| Owes(s, c) {
          assert Owes(s', c);
        } else if i: nat :| Vacant(s, i) {
          assert Vacant(s', i);
        }
      case _ =>
    }
  }

  lemma StepNotStuck(s: State, a: Action)
    requires SafeInv(s) && NotStuck(s) && NoStray(s)
    ensures NotStuck(Step(s, a))
  {
    match a
    case Submit(task) => SubmitNotStuck(s, task);
    case Enqueue(c) => EnqueueNotStuck(s, c);
    case Notify(c, t) => NotifyNotStuck(s, c, t);
    case Work(t) => WorkNotStuck(s, t);
    case Crash(t) => CrashNotStuck(s, t);
    case SpuriousWake(t) => WakeNotStuck(s, t);
    case Supervise => SuperviseNotStuck(s);
    case SupervisorWake => if s.running && s.tasks != [] { ServedElsewhere(s, Step(s, a), |s.calls|); }
    case CallStart(n) => if Step(s, a).running && s.tasks != [] { ServedElsewhere(s, Step(s, a), |s.calls|); }
    case CallStop =>
    case Control => ControlNotStuck(s);
    case SetMax(m) => if s.running && s.tasks != [] { ServedElsewhere(s, Step(s, a), |s.calls|); }
  }

  /** Within a period no worker becomes a stray. */
  lemma StepKeepsNoStray(s: State, a: Action)
    requires NoStray(s) && !Ends(a) && s.k.KIdle?
    ensures NoStray(Step(s, a))
  {
    if a.Supervise? {
      SuperviseMakesNoStray(s);
    } else if !a.Control? {
      IsWorkerSide(s, a);
      StrayStaysOut(s, a);
      forall t: nat ensures !Stray(Step(s, a), t) { assert !Stray(s, t); }
    }
  }

  lemma StrayStaysOut(s: State, a: Action)
    requires !a.Supervise? && !a.Control? && !Ends(a)
    ensures var s' := Step(s, a);
      && |s'.workers| == |s.workers|
      && forall t :: 0 <= t < |s.workers| && (s.workers[t].pc.WExiting? || Gone(s.workers[t].pc)) ==>
           s'.workers[t].pc.WExiting? || Gone(s'.workers[t].pc)
  {
    match a
    case Work(t) => if t < |s.workers| { WorkMovesOneWorker(s, t); WorkStaysOut(s, t); }
    case _ =>
  }

  lemma WorkStaysOut(s: State, t: nat)
    requires t < |s.workers|
    ensures s.workers[t].pc.WExiting? || Gone(s.workers[t].pc) ==>
              WorkStep(s, t).workers[t].pc.WExiting? || Gone(WorkStep(s, t).workers[t].pc)
  {
  }

  lemma SuperviseMakesNoStray(s: State)
    requires NoStray(s)
    ensures NoStray(SuperviseStep(s))
  {
    var s' := SuperviseStep(s);
    match s.v
    case VSpawn(_) => forall t: nat ensures !Stray(s', t) { assert !Stray(s, t); }
    case VHave(_) => forall t: nat ensures !Stray(s', t) { assert !Stray(s, t); }
    case VJoin(_) => forall t: nat ensures !Stray(s', t) { assert !Stray(s, t); }
    case _ => forall t: nat ensures !Stray(s', t) { assert !Stray(s, t); }
  }

  // ---- Every slot is accounted for ----------------------------------------------------------

  /** Slot `i` has a thread that has not yet reported its end. */
  predicate Live(s: State, i: nat)
  {
    && i < |s.handles| && s.handles[i].Some? && s.handles[i].value < |s.workers|
    && !Gone(s.workers[s.handles[i].value].pc)
  }

  /** The supervisor has taken slot `i` from the finished queue and not yet restarted it. */
  predicate InHand(v: SupervisorPc, i: nat)
  {
    (v.VHave? || v.VJoin? || v.VJoined? || v.VSpawn?) && v.id == i
  }

  predicate Accounted(s: State, i: nat) { Live(s, i) || i in s.finished || InHand(s.v, i) }

  ghost predicate SlotInv(s: State)
  {
    s.running ==> forall i: nat :: i < |s.handles| ==> Accounted(s, i)
  }

  lemma WorkKeepsSlots(s: State, t: nat)
    requires SafeInv(s) && SlotInv(s)
    ensures SlotInv(WorkStep(s, t))
  {
    var s' := WorkStep(s, t);
    WorkMovesOneWorker(s, t);
    WorkTouchesLittle(s, t);
    if t < |s.workers| && s'.running {
      WorkReports(s, t);
      forall i: nat | i < |s'.handles| ensures Accounted(s', i) {
        assert Accounted(s, i);
        if Live(s, i) && s.handles[i].value == t {
          assert Names(s, i, t);
        }
      }
    }
  }

  /** A worker that ends has put its slot on the finished queue. */
  lemma WorkReports(s: State, t: nat)
    requires t < |s.workers|
    ensures var s' := WorkStep(s, t);
      && |s'.workers| == |s.workers| && s.finished <= s'.finished
      && (Gone(s'.workers[t].pc) && !Gone(s.workers[t].pc) ==> s.workers[t].slot in s'.finished)
      && (Gone(s.workers[t].pc) ==> s'.finished == s.finished)
  {
    match s.workers[t].pc
    case WExiting =>
      if !SupervisorHolds(s.v) {
        assert (s.finished + [s.workers[t].slot])[|s.finished|] == s.workers[t].slot;
      }
    case _ =>
  }

  lemma SuperviseKeepsSlots(s: State)
    requires SafeInv(s) && SlotInv(s)
    ensures SlotInv(SuperviseStep(s))
  {
    var s' := SuperviseStep(s);
    if s'.running {
      SuperviseTouchesLittle(s);
      forall i: nat | i < |s'.handles| ensures Accounted(s', i) {
        assert Accounted(s, i);
        SuperviseKeepsSlot(s, i);
      }
    }
  }

  lemma SuperviseKeepsSlot(s: State, i: nat)
    requires SafeInv(s) && s.running && i < |s.handles| && Accounted(s, i)
    ensures Accounted(SuperviseStep(s), i)
  {
    match s.v
    case VChecked =>
      if s.finished != [] { assert s.finished == [s.finished[0]] + s.finished[1..]; }
    case VHave(id) =>
    case VJoin(id) =>
    case VJoined(id) =>
    case VSpawn(id) =>
    case _ =>
  }

  lemma ControlKeepsSlots(s: State)
    requires SafeInv(s) && SlotInv(s)
    ensures SlotInv(ControlStep(s))
  {
    var s' := ControlStep(s);
    if s'.running && s.k.KSpawning? {
      forall i: nat | i < |s'.handles| ensures Accounted(s', i) {
        if i < |s.handles| { assert Accounted(s, i); }
      }
    }
  }

  lemma QuietStepKeepsSlots(s: State, a: Action)
    requires SlotInv(s) && !a.Work? && !a.Supervise? && !a.Control?
    ensures SlotInv(Step(s, a))
  {
    var s' := Step(s, a);
    if s'.running {
      assert s'.handles == s.handles && s'.finished == s.finished;
      assert s'.v == s.v || (s.v.VWaiting? && s'.v.VWake?);
      forall i: nat | i < |s'.handles| ensures Accounted(s', i) {
        assert Accounted(s, i);
      }
    }
  }

  lemma StepKeepsSlots(s: State, a: Action)
    requires SafeInv(s) && SlotInv(s)
    ensures SlotInv(Step(s, a))
  {
    match a
    case Work(t) => WorkKeepsSlots(s, t);
    case Supervise => SuperviseKeepsSlots(s);
    case Control => ControlKeepsSlots(s);
    case _ => QuietStepKeepsSlots(s, a);
  }

  lemma {:induction false} ReachableSlots(schedule: seq<Action>)
    ensures SlotInv(Exec(Initial, schedule))
    decreases |schedule|
  {
    if schedule != [] {
      var front := schedule[..|schedule| - 1];
      ReachableSlots(front);
      ReachableSafe(front);
      StepKeepsSlots(Exec(Initial, front), schedule[|schedule| - 1]);
    }
  }

  // ---- The supervisor is never asleep on a report -------------------------------------------

  ghost predicate AlertInv(s: State) { s.v.VAboutToWait? || s.v.VWaiting? ==> s.finished == [] }

  lemma WorkKeepsAlert(s: State, t: nat)
    requires AlertInv(s)
    ensures AlertInv(WorkStep(s, t))
  {
    WorkTouchesLittle(s, t);
    if t < |s.workers| {
      match s.workers[t].pc
      case WTop =>
      case WChecked =>
      case WExiting =>
      case _ =>
    }
  }

  lemma StepKeepsAlert(s: State, a: Action)
    requires AlertInv(s)
    ensures AlertInv(Step(s, a))
  {
    match a
    case Work(t) => WorkKeepsAlert(s, t);
    case Supervise =>
    case Control =>
    case _ => assert Step(s, a).finished == s.finished;
  }

  /** In every reachable state a reported slot finds the supervisor awake or already woken. It may
      still be blocked joining a thread, and then reads the report only once that thread ends. */
  lemma {:induction false} NoReportIsMissed(schedule: seq<Action>)
    ensures var s := Exec(Initial, schedule); s.finished != [] ==> !s.v.VAboutToWait? && !s.v.VWaiting?
    decreases |schedule|
  {
    if schedule != [] {
      var front := schedule[..|schedule| - 1];
      NoReportIsMissed(front);
      StepKeepsAlert(Exec(Initial, front), schedule[|schedule| - 1]);
    }
  }
}

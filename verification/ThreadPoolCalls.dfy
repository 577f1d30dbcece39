/** What the callers of `submit` and `start` get, over every schedule. */
module ThreadPoolCalls {
  import opened Wrappers
  import opened ThreadPool
  import opened ThreadPoolSafety
  import opened ThreadPoolProgress

  // ---- submit -------------------------------------------------------------------------------

  predicate Full(s: State) { s.maxQueue > 0 && |s.tasks| >= s.maxQueue }

  /** This action turns call `c` away: it had no task or came while the flag was down, or it found the
      queue full when it held the lock. */
  predicate Refuses(s: State, a: Action, c: nat)
  {
    || (a.Submit? && c == |s.calls| && (a.task.None? || !s.running))
    || (a == Enqueue(c) && Wants(s, c) && s.lock.None? && Full(s))
  }

  /** This action puts task `x` of call `c` into the queue. */
  predicate Admits(s: State, a: Action, c: nat, x: Task)
  {
    a == Enqueue(c) && Wants(s, c) && s.calls[c].task == x && s.lock.None? && !Full(s)
  }

  /** This action is the call that becomes number `c`, with task `x`, while the flag is up. */
  predicate Calls(s: State, a: Action, c: nat, x: Task)
  {
    a == Submit(Some(x)) && c == |s.calls| && s.running
  }

  ghost function Before(schedule: seq<Action>, i: nat): State
    requires i <= |schedule|
  {
    Exec(Initial, schedule[..i])
  }

  ghost predicate RefusedAt(schedule: seq<Action>, c: nat, i: nat)
  {
    i < |schedule| && Refuses(Before(schedule, i), schedule[i], c)
  }

  ghost predicate AdmittedAt(schedule: seq<Action>, c: nat, x: Task, i: nat)
  {
    && i < |schedule| && Admits(Before(schedule, i), schedule[i], c, x)
    && Before(schedule, i + 1).accepted == Before(schedule, i).accepted + [x]
  }

  ghost predicate CalledAt(schedule: seq<Action>, c: nat, x: Task, i: nat)
  {
    i < |schedule| && Calls(Before(schedule, i), schedule[i], c, x)
  }

  /** What is known of call `c`. */
  ghost predicate Answered(schedule: seq<Action>, c: nat)
  {
    var s := Exec(Initial, schedule);
    && (c < |s.calls| && s.calls[c] == Done(false) <==> exists i: nat :: RefusedAt(schedule, c, i))
    && (c < |s.calls| && (s.calls[c].OwesNotify? || s.calls[c] == Done(true)) <==> Admitted(schedule, c))
  }

  lemma BeforeEarlier(schedule: seq<Action>, front: seq<Action>, i: nat)
    requires schedule != [] && front == schedule[..|schedule| - 1] && i <= |front|
    ensures Before(schedule, i) == Before(front, i)
    ensures i < |front| ==> schedule[i] == front[i]
  {
    assert schedule[..i] == front[..i];
  }

  lemma BeforeLast(schedule: seq<Action>, front: seq<Action>)
    requires schedule != [] && front == schedule[..|schedule| - 1]
    ensures Before(schedule, |front|) == Exec(Initial, front)
    ensures Before(schedule, |schedule|) == Exec(Initial, schedule) == Step(Exec(Initial, front), schedule[|front|])
  {
    assert schedule[..|front|] == front && schedule[..|schedule|] == schedule;
  }

  /** A moment of a schedule is a moment of the schedule without its last action, or the last one. */
  lemma RefusedSplit(schedule: seq<Action>, front: seq<Action>, c: nat)
    requires schedule != [] && front == schedule[..|schedule| - 1]
    ensures (exists i: nat :: RefusedAt(schedule, c, i))
      <==> (exists i: nat :: RefusedAt(front, c, i)) || Refuses(Exec(Initial, front), schedule[|front|], c)
  {
    BeforeLast(schedule, front);
    if i: nat :| RefusedAt(schedule, c, i) {
      if i < |front| { BeforeEarlier(schedule, front, i); assert RefusedAt(front, c, i); }
    }
    if i: nat :| RefusedAt(front, c, i) {
      BeforeEarlier(schedule, front, i);
      assert RefusedAt(schedule, c, i);
    }
    if Refuses(Exec(Initial, front), schedule[|front|], c) { assert RefusedAt(schedule, c, |front|); }
  }

  lemma AdmittedEarlier(schedule: seq<Action>, front: seq<Action>, c: nat, x: Task, i: nat)
    requires schedule != [] && front == schedule[..|schedule| - 1] && i < |front|
    ensures AdmittedAt(schedule, c, x, i) <==> AdmittedAt(front, c, x, i)
  {
    BeforeEarlier(schedule, front, i);
    BeforeEarlier(schedule, front, i + 1);
  }

  /** Some moment of the schedule put call `c` into the queue. */
  ghost predicate Admitted(schedule: seq<Action>, c: nat)
  {
    exists x: Task, i: nat :: AdmittedAt(schedule, c, x, i)
  }

  ghost predicate AdmitsSome(s: State, a: Action, c: nat) { exists x: Task :: Admits(s, a, c, x) }

  lemma AdmittedSplit(schedule: seq<Action>, front: seq<Action>, c: nat)
    requires schedule != [] && front == schedule[..|schedule| - 1]
    ensures Admitted(schedule, c)
      <==> Admitted(front, c) || AdmitsSome(Exec(Initial, front), schedule[|front|], c)
  {
    if Admitted(schedule, c) {
      var x: Task, i: nat :| AdmittedAt(schedule, c, x, i);
      if i < |front| {
        AdmittedEarlier(schedule, front, c, x, i);
      } else {
        BeforeLast(schedule, front);
        assert Admits(Exec(Initial, front), schedule[|front|], c, x);
      }
    }
    if Admitted(front, c) {
      var x: Task, i: nat :| AdmittedAt(front, c, x, i);
      AdmittedEarlier(schedule, front, c, x, i);
    }
    if AdmitsSome(Exec(Initial, front), schedule[|front|], c) { AdmittedNow(schedule, front, c); }
  }

  lemma AdmittedNow(schedule: seq<Action>, front: seq<Action>, c: nat)
    requires schedule != [] && front == schedule[..|schedule| - 1]
    requires AdmitsSome(Exec(Initial, front), schedule[|front|], c)
    ensures Admitted(schedule, c)
  {
    BeforeLast(schedule, front);
    var s, a := Exec(Initial, front), schedule[|front|];
    var x: Task :| Admits(s, a, c, x);
    AdmissionAppends(s, a, c, x);
    assert AdmittedAt(schedule, c, x, |front|);
  }

  lemma AdmissionAppends(s: State, a: Action, c: nat, x: Task)
    requires Admits(s, a, c, x)
    ensures Step(s, a).accepted == s.accepted + [x] && Step(s, a).tasks == s.tasks + [x]
  {
  }

  /** Only refusing ends a call without success, only admitting ends it otherwise, and what is decided
      stays decided. */
  lemma StepDecides(s: State, a: Action, c: nat)
    ensures var s' := Step(s, a);
      && |s.calls| <= |s'.calls|
      && (c < |s'.calls| && s'.calls[c] == Done(false)
          <==> (c < |s.calls| && s.calls[c] == Done(false)) || Refuses(s, a, c))
      && (c < |s'.calls| && (s'.calls[c].OwesNotify? || s'.calls[c] == Done(true))
          <==> (c < |s.calls| && (s.calls[c].OwesNotify? || s.calls[c] == Done(true)))
               || AdmitsSome(s, a, c))
  {
    if Wants(s, c) && a == Enqueue(c) && s.lock.None? && !Full(s) { assert Admits(s, a, c, s.calls[c].task); }
    match a
    case Submit(_) =>
    case Enqueue(_) =>
    case Notify(_, _) =>
    case Work(t) => WorkTouchesLittle(s, t);
    case Supervise => SuperviseKeepsCalls(s);
    case Control =>
    case _ =>
  }

  lemma SuperviseKeepsCalls(s: State)
    ensures SuperviseStep(s).calls == s.calls
  {
    match s.v
    case VSpawn(_) =>
    case VHave(_) =>
    case VJoin(_) =>
    case VChecked =>
    case _ =>
  }

  lemma {:induction false} AnsweredAlways(schedule: seq<Action>, c: nat)
    ensures Answered(schedule, c)
    decreases |schedule|
  {
    if schedule != [] {
      var front := schedule[..|schedule| - 1];
      AnsweredAlways(front, c);
      RefusedSplit(schedule, front, c);
      AdmittedSplit(schedule, front, c);
      StepDecides(Exec(Initial, front), schedule[|front|], c);
    }
  }

  /** A call that waits for the lock carries the task it was given while the flag was up. */
  lemma {:induction false} WaitsWithItsTask(schedule: seq<Action>, c: nat)
    ensures var s := Exec(Initial, schedule);
      Wants(s, c) ==> exists i: nat :: CalledAt(schedule, c, s.calls[c].task, i)
    decreases |schedule|
  {
    if schedule != [] && Wants(Exec(Initial, schedule), c) {
      var front, a := schedule[..|schedule| - 1], schedule[|schedule| - 1];
      var s, x := Exec(Initial, front), Exec(Initial, schedule).calls[c].task;
      WaitingBefore(s, a, c);
      BeforeLast(schedule, front);
      if Wants(s, c) {
        WaitsWithItsTask(front, c);
        var i: nat :| CalledAt(front, c, x, i);
        BeforeEarlier(schedule, front, i);
        assert CalledAt(schedule, c, x, i);
      } else {
        assert CalledAt(schedule, c, x, |front|);
      }
    }
  }

  lemma WaitingBefore(s: State, a: Action, c: nat)
    requires Wants(Step(s, a), c)
    ensures if Wants(s, c) then s.calls[c] == Step(s, a).calls[c] else Calls(s, a, c, Step(s, a).calls[c].task)
  {
    match a
    case Submit(_) =>
    case Enqueue(_) =>
    case Notify(_, _) =>
    case Work(t) => WorkTouchesLittle(s, t);
    case Supervise => SuperviseKeepsCalls(s);
    case Control =>
    case _ =>
  }

  /** Over every schedule: `submit` answers no exactly if it had no task, found the flag down, or found
      the queue at a positive limit when it held the lock; it has answered or will answer yes exactly
      if it has put into the queue, behind everything accepted before, the very task it was given. */
  lemma SubmitAnswers(schedule: seq<Action>, c: nat)
    requires c < |Exec(Initial, schedule).calls|
    ensures var call := Exec(Initial, schedule).calls[c];
      && (call == Done(false) <==> exists i: nat :: RefusedAt(schedule, c, i))
      && (call.OwesNotify? || call == Done(true)
          <==> exists x: Task, i: nat, j: nat :: CalledAt(schedule, c, x, j) && AdmittedAt(schedule, c, x, i))
  {
    AnsweredAlways(schedule, c);
    if Admitted(schedule, c) {
      var x: Task, i: nat :| AdmittedAt(schedule, c, x, i);
      AdmittedItsOwn(schedule, c, x, i);
    }
  }

  lemma AdmittedItsOwn(schedule: seq<Action>, c: nat, x: Task, i: nat)
    requires AdmittedAt(schedule, c, x, i)
    ensures exists j: nat :: CalledAt(schedule, c, x, j)
  {
    var front := schedule[..i];
    WaitsWithItsTask(front, c);
    var j: nat :| CalledAt(front, c, x, j);
    assert schedule[..j] == front[..j];
    assert CalledAt(schedule, c, x, j);
  }

  /** The limit last set, 0 at first. */
  function LastMax(schedule: seq<Action>): nat
  {
    if schedule == [] then 0
    else
      var a := schedule[|schedule| - 1];
      if a.SetMax? then a.max else LastMax(schedule[..|schedule| - 1])
  }

  /** The limit that `submit` tests the queue against is the one last set. */
  lemma {:induction false} LimitIsLastSet(schedule: seq<Action>)
    ensures Exec(Initial, schedule).maxQueue == LastMax(schedule)
    decreases |schedule|
  {
    if schedule != [] {
      var front, a := schedule[..|schedule| - 1], schedule[|schedule| - 1];
      LimitIsLastSet(front);
      var s := Exec(Initial, front);
      if a.Work? {
        WorkKeepsMax(s, a.thread);
      } else if a.Supervise? {
        SuperviseKeepsMax(s);
      }
    }
  }

  lemma WorkKeepsMax(s: State, t: nat)
    ensures WorkStep(s, t).maxQueue == s.maxQueue
  {
    if t < |s.workers| {
      match s.workers[t].pc
      case WTop =>
      case WLoop =>
      case WChecked =>
      case WExiting =>
      case _ =>
    }
  }

  lemma SuperviseKeepsMax(s: State)
    ensures SuperviseStep(s).maxQueue == s.maxQueue
  {
    match s.v
    case VSpawn(_) =>
    case VHave(_) =>
    case VJoin(_) =>
    case VChecked =>
    case _ =>
  }

  // ---- start --------------------------------------------------------------------------------

  /** The number of workers that the `start` under way, or the latest one, was given. */
  predicate Aims(s: State, n: nat)
  {
    match s.k
    case KIdle => s.running && s.numWorkers == |s.handles| == n
    case KNotifyTasks(restart) => restart == Some(n)
    case KNotifyFinished(restart) => restart == Some(n)
    case KJoin(_, restart) => restart == Some(n)
    case KJoinSupervisor(restart) => restart == Some(n)
    case KStarting(m) => m == n
    case KSpawning(m) => m == n
  }

  lemma StepKeepsAim(s: State, a: Action, n: nat)
    requires PhaseInv(s) && Aims(s, n) && !Ends(a)
    ensures Aims(Step(s, a), n)
  {
    if a.Supervise? {
      SuperviseTouchesLittle(s);
    } else if !a.Control? {
      IsWorkerSide(s, a);
    }
  }

  lemma {:induction false} AimStays(s: State, schedule: seq<Action>, n: nat)
    requires SafeInv(s) && Aims(s, n) && WithinPeriod(schedule)
    ensures SafeInv(Exec(s, schedule)) && Aims(Exec(s, schedule), n)
    decreases |schedule|
  {
    if schedule != [] {
      var front := schedule[..|schedule| - 1];
      AimStays(s, front, n);
      StepKeepsAim(Exec(s, front), schedule[|schedule| - 1], n);
      StepKeepsSafe(Exec(s, front), schedule[|schedule| - 1]);
    }
  }

  /** Called while the controlling thread is free, `start(n)` with a positive n leaves a running pool with
      exactly n slots whenever it returns, whether the pool was running before or not, whatever
      happens meanwhile; every slot is then live, reported or in the supervisor's hands. `start(0)`
      does nothing. */
  lemma StartMakesSlots(prefix: seq<Action>, n: nat, rest: seq<Action>)
    requires Exec(Initial, prefix).k.KIdle? && WithinPeriod(rest)
    ensures var s := Exec(Initial, prefix);
      var t := Exec(Step(s, CallStart(n)), rest);
      && (n == 0 ==> Step(s, CallStart(n)) == s)
      && (n > 0 && t.k.KIdle? ==>
            t.running && |t.handles| == t.numWorkers == n && forall i: nat :: i < n ==> Accounted(t, i))
  {
    ReachableSafe(prefix);
    var s := Exec(Initial, prefix);
    if n > 0 {
      StepKeepsSafe(s, CallStart(n));
      AimStays(Step(s, CallStart(n)), rest, n);
      SlotsAfter(prefix, n, rest);
    }
  }

  lemma SlotsAfter(prefix: seq<Action>, n: nat, rest: seq<Action>)
    ensures SlotInv(Exec(Step(Exec(Initial, prefix), CallStart(n)), rest))
  {
    ExecSnoc(Initial, prefix, CallStart(n));
    ReachableSlots(prefix + [CallStart(n)]);
    SlotsThrough(Exec(Initial, prefix + [CallStart(n)]), rest, prefix + [CallStart(n)]);
  }

  lemma {:induction false} SlotsThrough(s: State, rest: seq<Action>, prefix: seq<Action>)
    requires s == Exec(Initial, prefix)
    ensures SlotInv(Exec(s, rest)) && Exec(s, rest) == Exec(Initial, prefix + rest)
    decreases |rest|
  {
    if rest == [] {
      assert prefix + rest == prefix;
      ReachableSlots(prefix);
    } else {
      var front := rest[..|rest| - 1];
      SlotsThrough(s, front, prefix);
      ExecSnoc(Initial, prefix + front, rest[|rest| - 1]);
      assert prefix + front + [rest[|rest| - 1]] == prefix + rest;
      ReachableSlots(prefix + rest);
    }
  }

  // ---- stop ---------------------------------------------------------------------------------

  /** A `stop` is under way or has returned, and no `start` is waiting behind it. */
  predicate Ending(s: State)
  {
    match s.k
    case KIdle => !s.running
    case KNotifyTasks(restart) => restart.None?
    case KNotifyFinished(restart) => restart.None?
    case KJoin(_, restart) => restart.None?
    case KJoinSupervisor(restart) => restart.None?
    case KStarting(_) => false
    case KSpawning(_) => false
  }

  lemma {:induction false} EndingStays(s: State, schedule: seq<Action>)
    requires SafeInv(s) && Ending(s) && WithinPeriod(schedule)
    ensures SafeInv(Exec(s, schedule)) && Ending(Exec(s, schedule))
    decreases |schedule|
  {
    if schedule != [] {
      var front, a := schedule[..|schedule| - 1], schedule[|schedule| - 1];
      EndingStays(s, front);
      var t := Exec(s, front);
      StepKeepsSafe(t, a);
      assert !Ends(a);
      if a.Supervise? {
        SuperviseTouchesLittle(t);
      } else if !a.Control? {
        IsWorkerSide(t, a);
      }
    }
  }

  /** Called while the controlling thread is free, `stop` leaves a stopped pool without a supervisor
      whenever it returns; on a pool that is not running it does nothing. */
  lemma StopStops(prefix: seq<Action>, rest: seq<Action>)
    requires Exec(Initial, prefix).k.KIdle? && WithinPeriod(rest)
    ensures var s := Exec(Initial, prefix);
      var t := Exec(Step(s, CallStop), rest);
      && (!s.running ==> Step(s, CallStop) == s)
      && (t.k.KIdle? ==> !t.running && t.v.VNone?)
  {
    ReachableSafe(prefix);
    var s := Exec(Initial, prefix);
    StepKeepsSafe(s, CallStop);
    EndingStays(Step(s, CallStop), rest);
  }
}

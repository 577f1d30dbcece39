/** Exactly when `stop` can return and leave a worker thread behind. */
module ThreadPoolLeftovers {
  import opened Wrappers
  import opened ThreadPool
  import opened ThreadPoolSafety
  import opened ThreadPoolProgress
  import opened ThreadPoolSettle
  import opened ThreadPoolStop
  import opened ThreadPoolStray

  predicate Alive(s: State, t: nat) { t < |s.workers| && !s.workers[t].pc.WDead? }

  /** A worker of an earlier period that has not ended. */
  predicate LeftOver(s: State, t: nat) { Alive(s, t) && s.workers[t].period < s.period }

  /** Some schedule in which `stop` had not returned before leads from one state to the other. */
  ghost predicate StopLeads(s: State, r: State) { exists schedule :: Through(s, schedule) && Exec(s, schedule) == r }

  lemma StopLeadsStep(s: State, r: State, a: Action)
    requires StopLeads(s, r) && Stopping(r)
    ensures StopLeads(s, Step(r, a))
  {
    var schedule :| Through(s, schedule) && Exec(s, schedule) == r;
    assert (schedule + [a])[..|schedule|] == schedule;
    assert Through(s, schedule + [a]);
    ExecSnoc(s, schedule, a);
  }

  // ---- Otherwise nobody is left -------------------------------------------------------------

  /** `stop` is past slot `j`. */
  predicate Passed(k: ControlPc, j: nat) { (k.KJoin? && j < k.i) || k.KJoinSupervisor? }

  /** Everybody alive belongs to this period, the supervisor will create nobody, and the slots passed
      have no thread. */
  ghost predicate CleanSoFar(s: State)
  {
    && (forall t: nat :: !LeftOver(s, t)) && !s.v.VSpawn?
    && forall j: nat :: j < |s.handles| && Passed(s.k, j) ==> s.handles[j].None?
  }

  ghost predicate NobodyAlive(s: State) { forall t: nat :: !Alive(s, t) }

  ghost predicate Clean(s: State) { if Stopping(s) then CleanSoFar(s) else NobodyAlive(s) }

  /** Worker and outside steps end threads at most, and leave the handles. */
  lemma WorkerSideKeepsClean(s: State, a: Action)
    requires SafeInv(s) && Stopping(s) && CleanSoFar(s) && !a.Supervise? && !a.Control? && !Ends(a)
    ensures Clean(Step(s, a))
  {
    var s' := Step(s, a);
    IsWorkerSide(s, a);
    forall t: nat ensures !LeftOver(s', t) { assert !LeftOver(s, t); }
  }

  lemma SuperviseKeepsClean(s: State)
    requires SafeInv(s) && Stopping(s) && CleanSoFar(s)
    ensures Clean(SuperviseStep(s))
  {
    var s' := SuperviseStep(s);
    SuperviseTouchesLittle(s);
    SuperviseCreatesNobody(s);
    forall t: nat ensures !LeftOver(s', t) { assert !LeftOver(s, t); }
  }

  lemma SuperviseCreatesNobody(s: State)
    requires !s.running && !s.v.VSpawn?
    ensures var s' := SuperviseStep(s);
      && s'.workers == s.workers && s'.period == s.period && !s'.v.VSpawn? && |s'.handles| == |s.handles|
      && forall j :: 0 <= j < |s.handles| && s.handles[j].None? ==> s'.handles[j].None?
  {
  }

  lemma ControlKeepsClean(s: State)
    requires SafeInv(s) && Stopping(s) && CleanSoFar(s)
    ensures Clean(ControlStep(s))
  {
    var s' := ControlStep(s);
    match s.k
    case KNotifyTasks(_) => forall t: nat ensures !LeftOver(s', t) { assert !LeftOver(s, t); }
    case KNotifyFinished(_) => forall t: nat ensures !LeftOver(s', t) { assert !LeftOver(s, t); }
    case KJoin(i, _) => forall t: nat ensures !LeftOver(s', t) { assert !LeftOver(s, t); }
    case KJoinSupervisor(_) =>
      forall t: nat ensures !LeftOver(s', t) { assert !LeftOver(s, t); }
      forall t: nat ensures !Alive(s', t) { AllJoined(s, t); }
  }

  lemma AllJoined(s: State, t: nat)
    requires HandleInv(s) && s.k.KJoinSupervisor? && CleanSoFar(s)
    ensures !Alive(s, t)
  {
    assert !LeftOver(s, t);
    assert Alive(s, t) ==> Names(s, s.workers[t].slot, t);
  }

  lemma {:induction false} StaysClean(s: State, schedule: seq<Action>)
    requires SafeInv(s) && Stopping(s) && CleanSoFar(s) && Through(s, schedule)
    ensures SafeInv(Exec(s, schedule)) && Clean(Exec(s, schedule))
    decreases |schedule|
  {
    if schedule != [] {
      var front, a := schedule[..|schedule| - 1], schedule[|schedule| - 1];
      StaysClean(s, front);
      var t := Exec(s, front);
      StepKeepsSafe(t, a);
      if a.Supervise? {
        SuperviseKeepsClean(t);
      } else if a.Control? {
        ControlKeepsClean(t);
      } else if !Ends(a) {
        WorkerSideKeepsClean(t, a);
      }
    }
  }

  // ---- Keeping a worker of an earlier period alive ------------------------------------------

  /** Only worker `x` can move, and only to end. */
  ghost predicate RestStill(s: State, x: nat)
  {
    && SuperviseStep(s) == s && ControlStep(s) == s
    && forall t: nat :: WorkStep(s, t) == s || (t == x && t < |s.workers| && s.workers[t].pc.WPushed?)
  }

  lemma RestWorkers(s: State, x: nat)
    requires SafeInv(s) && Stopping(s) && RestStill(s, x)
    ensures forall t :: 0 <= t < |s.workers| && t != x ==> s.workers[t].pc.WDead? || s.workers[t].pc.WWaiting?
  {
    HungSupervisor(s);
    if s.lock.Some? { HungWorker(s, s.lock.value); }
    forall t | 0 <= t < |s.workers| && t != x ensures s.workers[t].pc.WDead? || s.workers[t].pc.WWaiting? {
      HungWorker(s, t);
    }
  }

  /** A worker somebody waits for can be woken. */
  lemma WakesSleeper(s: State, u: nat)
    requires IsWaiting(s, u)
    ensures Potential(Step(s, SpuriousWake(u))) < Potential(s)
    ensures forall t: nat :: Alive(s, t) ==> Alive(Step(s, SpuriousWake(u)), t)
  {
    WakeLowersPotential(s, u, WWake);
  }

  /** At rest, somebody sleeps whose end is awaited: a wakeup from outside brings the run forward. */
  lemma OutsideWakeup(s: State, x: nat) returns (a: Action)
    requires SafeInv(s) && Stopping(s) && RestStill(s, x) && LeftOver(s, x)
    ensures Potential(Step(s, a)) < Potential(s) && Step(s, a).period == s.period
    ensures forall t: nat :: Alive(s, t) ==> Alive(Step(s, a), t)
    ensures a.SpuriousWake? || a.SupervisorWake?
  {
    RestWorkers(s, x);
    HungSupervisor(s);
    if s.v.VWaiting? {
      a := SupervisorWake;
    } else {
      var u := AwaitedSleeper(s, x);
      a := SpuriousWake(u);
      WakesSleeper(s, u);
    }
  }

  lemma AwaitedSleeper(s: State, x: nat) returns (u: nat)
    requires SafeInv(s) && Stopping(s) && RestStill(s, x) && LeftOver(s, x) && !s.v.VWaiting?
    ensures IsWaiting(s, u)
  {
    RestWorkers(s, x);
    HungSupervisor(s);
    if s.v.VJoin? {
      u := s.handles[s.v.id].value;
      assert Names(s, s.v.id, u);
    } else {
      RestJoining(s, x);
      u := s.handles[s.k.i].value;
      assert Names(s, s.k.i, u);
    }
  }

  lemma RestJoining(s: State, x: nat)
    requires Stopping(s) && RestStill(s, x) && (s.v.VNone? || s.v.VExit?)
    ensures s.k.KJoin? && s.k.i < |s.handles| && s.handles[s.k.i].Some?
    ensures s.handles[s.k.i].value < |s.workers| ==> !s.workers[s.handles[s.k.i].value].pc.WDead?
  {
    NotifyingMoves(s);
  }

  lemma NotifyingMoves(s: State)
    requires Stopping(s) && ControlStep(s) == s
    ensures Joining(s)
  {
  }

  /** Some action brings `stop` nearer to its return and leaves worker `x` alive. */
  lemma ForwardSparing(s: State, x: nat) returns (a: Action)
    requires SafeInv(s) && Stopping(s) && LeftOver(s, x)
    ensures Potential(Step(s, a)) < Potential(s) && LeftOver(Step(s, a), x)
  {
    if ControlStep(s) != s {
      a := Control;
      StepLowersPotential(s, a);
    } else if SuperviseStep(s) != s {
      a := Supervise;
      StepLowersPotential(s, a);
      SuperviseSpares(s, x);
    } else if t: nat :| WorkStep(s, t) != s && !(t == x && s.workers[x].pc.WPushed?) {
      a := Work(t);
      StepLowersPotential(s, a);
      WorkSpares(s, t, x);
    } else {
      a := OutsideSpares(s, x);
    }
  }

  lemma OutsideSpares(s: State, x: nat) returns (a: Action)
    requires SafeInv(s) && Stopping(s) && LeftOver(s, x)
    requires ControlStep(s) == s && SuperviseStep(s) == s
    requires forall t: nat :: WorkStep(s, t) != s ==> t == x && s.workers[x].pc.WPushed?
    ensures Potential(Step(s, a)) < Potential(s) && LeftOver(Step(s, a), x)
  {
    a := OutsideWakeup(s, x);
    assert Alive(Step(s, a), x);
    IsWorkerSide(s, a);
  }

  lemma SuperviseSpares(s: State, x: nat)
    requires LeftOver(s, x)
    ensures LeftOver(SuperviseStep(s), x)
  {
    match s.v
    case VSpawn(_) =>
    case VHave(_) =>
    case VJoin(_) =>
    case VChecked =>
    case _ =>
  }

  lemma WorkSpares(s: State, t: nat, x: nat)
    requires LeftOver(s, x) && !(t == x && s.workers[x].pc.WPushed?)
    ensures LeftOver(WorkStep(s, t), x)
  {
    WorkMovesOneWorker(s, t);
    WorkTouchesLittle(s, t);
    if t == x { WorkEndsOnlyPushed(s, t); }
  }

  lemma WorkEndsOnlyPushed(s: State, t: nat)
    requires t < |s.workers| && !s.workers[t].pc.WPushed? && !s.workers[t].pc.WDead?
    ensures !WorkStep(s, t).workers[t].pc.WDead?
  {
    match s.workers[t].pc
    case WExiting =>
    case WChecked =>
    case _ =>
  }

  lemma {:induction false} ReturnsSparing(s0: State, s: State, x: nat) returns (r: State)
    requires StopLeads(s0, s) && SafeInv(s) && Stopping(s) && LeftOver(s, x)
    ensures StopLeads(s0, r) && !Stopping(r) && Alive(r, x)
    decreases Potential(s)
  {
    var a := ForwardSparing(s, x);
    StopLeadsStep(s0, s, a);
    StepKeepsSafe(s, a);
    if Stopping(Step(s, a)) {
      r := ReturnsSparing(s0, Step(s, a), x);
    } else {
      r := Step(s, a);
    }
  }

  // ---- A supervisor that is past its check --------------------------------------------------

  /** Some action brings `stop` nearer to joining the supervisor, which stays where it is. */
  lemma ForwardPausing(s: State) returns (a: Action)
    requires SafeInv(s) && Stopping(s) && s.v.VSpawn? && !s.k.KJoinSupervisor?
    ensures Potential(Step(s, a)) < Potential(s) && Step(s, a).v == s.v && Stopping(Step(s, a))
  {
    if ControlStep(s) != s {
      a := Control;
      StepLowersPotential(s, a);
    } else if t: nat :| WorkStep(s, t) != s {
      a := Work(t);
      StepLowersPotential(s, a);
      WorkTouchesLittle(s, t);
    } else {
      var u := PausedSleeper(s);
      a := SpuriousWake(u);
      WakesSleeper(s, u);
    }
  }

  lemma PausedSleeper(s: State) returns (u: nat)
    requires SafeInv(s) && Stopping(s) && s.v.VSpawn? && !s.k.KJoinSupervisor?
    requires ControlStep(s) == s && forall t: nat :: WorkStep(s, t) == s
    ensures IsWaiting(s, u)
  {
    NotifyingMoves(s);
    PausedJoin(s);
    u := s.handles[s.k.i].value;
    assert Names(s, s.k.i, u);
    if s.lock.Some? { HungWorker(s, s.lock.value); }
    HungWorker(s, u);
  }

  lemma PausedJoin(s: State)
    requires s.k.KJoin? && ControlStep(s) == s
    ensures s.k.i < |s.handles| && s.handles[s.k.i].Some?
    ensures s.handles[s.k.i].value < |s.workers| ==> !s.workers[s.handles[s.k.i].value].pc.WDead?
  {
  }

  lemma {:induction false} ReachesSupervisor(s0: State, s: State) returns (r: State)
    requires StopLeads(s0, s) && SafeInv(s) && Stopping(s) && s.v.VSpawn?
    ensures StopLeads(s0, r) && SafeInv(r) && r.k.KJoinSupervisor? && r.v.VSpawn?
    decreases Potential(s)
  {
    if s.k.KJoinSupervisor? {
      r := s;
    } else {
      var a := ForwardPausing(s);
      StopLeadsStep(s0, s, a);
      StepKeepsSafe(s, a);
      r := ReachesSupervisor(s0, Step(s, a));
    }
  }

  /** The supervisor creates the replacement after every slot has been passed, and then ends. */
  lemma SpawnsLate(s0: State, s: State) returns (r: State)
    requires StopLeads(s0, s) && SafeInv(s) && s.k.KJoinSupervisor? && s.v.VSpawn?
    ensures StopLeads(s0, r) && !Stopping(r) && Alive(r, |s.workers|)
  {
    StopLeadsStep(s0, s, Supervise);
    var a := Step(s, Supervise);
    SpawnsOne(s);
    r := EndsAfterSpawn(s0, a);
  }

  lemma SpawnsOne(s: State)
    requires SafeInv(s) && s.k.KJoinSupervisor? && s.v.VSpawn?
    ensures var a := SuperviseStep(s);
      && a.v == VTop && !a.running && a.k == s.k && a.workers == s.workers + [Worker(s.v.id, s.period, WTop)]
  {
  }

  lemma EndsAfterSpawn(s0: State, s: State) returns (r: State)
    requires StopLeads(s0, s) && s.k.KJoinSupervisor? && s.v == VTop && !s.running
    ensures StopLeads(s0, r) && !Stopping(r) && r.workers == s.workers
  {
    StopLeadsStep(s0, s, Supervise);
    var b := Step(s, Supervise);
    assert b == s.(v := VExit);
    StopLeadsStep(s0, b, Control);
    r := Step(b, Control);
  }

  // ---- The exact condition ------------------------------------------------------------------

  /** Some schedule after the call to `stop` lets it return with a thread left. */
  ghost predicate CanLeave(s: State)
  {
    exists r, t: nat :: StopLeads(s, r) && !Stopping(r) && Alive(r, t)
  }

  lemma CallLeads(s: State)
    ensures StopLeads(s, s)
  {
    assert Through(s, []) && Exec(s, []) == s;
  }

  /** In every reachable state in which `stop` can be called on a running pool: some schedule lets it
      return with a worker thread alive exactly if the supervisor is already past its last check of
      the flag and about to create a replacement, or a worker of an earlier period has not ended. */
  lemma StopLeavesWorkerIff(prefix: seq<Action>)
    requires Up(Exec(Initial, prefix))
    ensures var s := Exec(Initial, prefix);
      CanLeave(Step(s, CallStop)) <==> s.v.VSpawn? || exists t: nat :: LeftOver(s, t)
  {
    var s := Exec(Initial, prefix);
    var c := Step(s, CallStop);
    ReachableSafe(prefix);
    StepKeepsSafe(s, CallStop);
    CallLeads(c);
    if s.v.VSpawn? {
      var m := ReachesSupervisor(c, c);
      var r := SpawnsLate(c, m);
    } else if t: nat :| LeftOver(s, t) {
      assert LeftOver(c, t);
      var r := ReturnsSparing(c, c, t);
    } else {
      CleanCall(s, c);
    }
  }

  lemma CleanCall(s: State, c: State)
    requires Up(s) && c == Step(s, CallStop) && SafeInv(c) && !s.v.VSpawn? && forall t: nat :: !LeftOver(s, t)
    ensures !CanLeave(c)
  {
    forall t: nat ensures !LeftOver(c, t) { assert !LeftOver(s, t); }
    forall r, t: nat | StopLeads(c, r) && !Stopping(r) ensures !Alive(r, t) {
      var schedule :| Through(c, schedule) && Exec(c, schedule) == r;
      StaysClean(c, schedule);
    }
  }

  /** A run after which `stop`, if called now, can leave a thread behind: the only worker has crashed and
      the supervisor, past its check, is about to replace it. */
  lemma StopLeavesWorkerInARun()
    ensures exists prefix :: Up(Exec(Initial, prefix)) && CanLeave(Step(Exec(Initial, prefix), CallStop))
  {
    Reach3();
    var prefix :| Exec(Initial, prefix) == Respawning;
    StopLeavesWorkerIff(prefix);
  }
}

/** Two ways in which a running pool comes to hold a task that no thread will take.

    A stray worker: the supervisor passes its running check, `stop` completes its joins, and only then
    does the supervisor create the replacement. That worker sees the flag of the next `start` and can
    wait on the same condition variable, receive the one notification and crash. Its report then
    names a slot whose present thread is alive, so the supervisor blocks joining that thread.

    An ordinary restart: the workers that `stop` ends report their slots, the supervisor ends without
    reading the reports, and the next `start` keeps them. The new supervisor takes the first and
    blocks joining a healthy worker; when another worker crashes, nobody replaces it. */
module ThreadPoolStray {
  import opened Wrappers
  import opened ThreadPool
  import opened ThreadPoolProgress
  import opened ThreadPoolSettle
  import opened ThreadPoolStranded

  const Started: State :=
    Initial.(running := true, numWorkers := 1, handles := [Some(0)], workers := [Worker(0, 1, WTop)],
             v := VTop, period := 1)

  /** The first worker crashes, is reported and joined; the supervisor has decided to respawn. */
  const Respawning: State :=
    Started.(handles := [None], workers := [Worker(0, 1, WDead)], v := VSpawn(0))

  const StopWaits: State := Respawning.(running := false, k := KJoinSupervisor(None))

  /** The replacement was created after `stop` had passed its slot. */
  const StrayBorn: State :=
    StopWaits.(handles := [Some(1)], workers := [Worker(0, 1, WDead), Worker(0, 1, WTop)],
               v := VNone, k := KIdle)

  const Restarted: State :=
    StrayBorn.(running := true, handles := [Some(2)], v := VTop, period := 2,
               workers := [Worker(0, 1, WDead), Worker(0, 1, WTop), Worker(0, 2, WTop)])

  lemma Reach1()
    ensures Reachable(Started)
  {
    assert Exec(Initial, []) == Initial;
    ReachStep(Initial, CallStart(1));
    var a := Step(Initial, CallStart(1));
    ReachStep(a, Control);
    var b := Step(a, Control);
    ReachStep(b, Control);
    var c := Step(b, Control);
    ReachStep(c, Control);
    assert Step(c, Control) == Started;
  }

  lemma Reach2()
    ensures Reachable(Started.(workers := [Worker(0, 1, WDead)], finished := [0]))
  {
    Reach1();
    var s := Started;
    ReachStep(s, Crash(0));
    s := Step(s, Crash(0));
    ReachStep(s, Work(0));
    s := Step(s, Work(0));
    assert s == Started.(workers := [Worker(0, 1, WPushed)], finished := [0]);
    ReachStep(s, Work(0));
    assert Step(s, Work(0)) == Started.(workers := [Worker(0, 1, WDead)], finished := [0]);
  }

  /** The supervisor takes a report for slot 0 off the queue. */
  lemma TakeReport(s: State)
    requires Reachable(s) && s.v == VTop && s.running && s.finished == [0]
    ensures Reachable(s.(v := VHave(0), finished := []))
  {
    SeesReport(s);
    var c := s.(v := VChecked);
    ReachStep(c, Supervise);
    assert Step(c, Supervise) == s.(v := VHave(0), finished := []);
  }

  lemma SeesReport(s: State)
    requires Reachable(s) && s.v == VTop && s.running && s.finished == [0]
    ensures Reachable(s.(v := VChecked))
  {
    ReachStep(s, Supervise);
    var a := s.(v := VWantLock);
    assert a == Step(s, Supervise);
    ReachStep(a, Supervise);
    var b := s.(v := VLoop);
    assert b == Step(a, Supervise);
    ReachStep(b, Supervise);
    assert s.(v := VChecked) == Step(b, Supervise);
  }

  lemma Reach3()
    ensures Reachable(Respawning)
  {
    Reach2();
    TakeReport(Started.(workers := [Worker(0, 1, WDead)], finished := [0]));
    var a := Started.(workers := [Worker(0, 1, WDead)], v := VHave(0));
    ReachStep(a, Supervise);
    var b := Step(a, Supervise);
    ReachStep(b, Supervise);
    var c := Step(b, Supervise);
    assert c == Respawning.(v := VJoined(0));
    ReachStep(c, Supervise);
    assert Step(c, Supervise) == Respawning;
  }

  lemma Reach4()
    ensures Reachable(StopWaits)
  {
    Reach3();
    ReachStep(Respawning, CallStop);
    var a := Step(Respawning, CallStop);
    ReachStep(a, Control);
    var b := Step(a, Control);
    assert b.workers == a.workers;
    ReachStep(b, Control);
    var c := Step(b, Control);
    ReachStep(c, Control);
    var d := Step(c, Control);
    ReachStep(d, Control);
    assert Step(d, Control) == StopWaits;
  }

  lemma Reach5()
    ensures Reachable(StrayBorn)
  {
    Reach4();
    ReachStep(StopWaits, Supervise);
    var a := Step(StopWaits, Supervise);
    assert a == StrayBorn.(v := VTop, k := KJoinSupervisor(None));
    ReachStep(a, Supervise);
    var b := Step(a, Supervise);
    ReachStep(b, Control);
    assert Step(b, Control) == StrayBorn;
  }

  lemma Reach6()
    ensures Reachable(Restarted)
  {
    Reach5();
    ReachStep(StrayBorn, CallStart(1));
    var a := Step(StrayBorn, CallStart(1));
    ReachStep(a, Control);
    var b := Step(a, Control);
    ReachStep(b, Control);
    var c := Step(b, Control);
    ReachStep(c, Control);
    assert Step(c, Control) == Restarted;
  }

  /** A crashed worker reports its slot and ends. */
  lemma ReportsAndEnds(s: State, t: nat)
    requires Reachable(s) && t < |s.workers| && s.workers[t].pc == WExiting && s.v == VTop
    ensures Reachable(SetPc(s, t, WDead).(finished := s.finished + [s.workers[t].slot]))
  {
    ReachStep(s, Work(t));
    var a := Step(s, Work(t));
    assert a == SetPc(s, t, WPushed).(finished := s.finished + [s.workers[t].slot]);
    ReachStep(a, Work(t));
    assert Step(a, Work(t)) == SetPc(s, t, WDead).(finished := s.finished + [s.workers[t].slot]);
  }

  /** One worker and one restart: a running pool of one worker with a stray beside it, born after `stop`
      had passed its slot. From here a task can be stranded. */
  lemma StrayWorkerCanStrandATask()
    ensures Reachable(Restarted) && Restarted.period == 2 && Restarted.numWorkers == 1
    ensures Stray(Restarted, 1) && CanStrand(Restarted)
  {
    Reach6();
    assert Stray(Restarted, 1);
    var prefix :| Exec(Initial, prefix) == Restarted;
    StrandsIff(prefix);
  }

  // ---- An ordinary restart ------------------------------------------------------------------

  const Pair: State :=
    Initial.(running := true, numWorkers := 2, handles := [Some(0), Some(1)],
             workers := [Worker(0, 1, WTop), Worker(1, 1, WTop)], v := VTop, period := 1)

  const Stopped: State :=
    Pair.(running := false, workers := [Worker(0, 1, WDead), Worker(1, 1, WDead)], finished := [0, 1],
          handles := [None, None], v := VNone)

  const Again: State :=
    Stopped.(running := true, period := 2, handles := [Some(2), Some(3)], v := VTop,
             workers := [Worker(0, 1, WDead), Worker(1, 1, WDead), Worker(0, 2, WTop), Worker(1, 2, WTop)])

  /** `start` creates the thread of the next slot. */
  lemma SpawnsNext(s: State, n: nat)
    requires Reachable(s) && s.k == KSpawning(n) && |s.handles| < n
    ensures Reachable(s.(workers := s.workers + [Worker(|s.handles|, s.period, WTop)],
                         handles := s.handles + [Some(|s.workers|)]))
  {
    ReachStep(s, Control);
  }

  lemma StartsNone(s: State)
    requires Reachable(s) && !s.running && s.k == KIdle
    ensures Reachable(s.(running := true, numWorkers := 2, period := s.period + 1, handles := [],
                         k := KSpawning(2)))
  {
    ReachStep(s, CallStart(2));
    ReachStep(Step(s, CallStart(2)), Control);
  }

  /** `start(2)` on a stopped pool. */
  lemma StartsTwo(s: State, ws: seq<Worker>, r: State)
    requires Reachable(s) && !s.running && s.k == KIdle
    requires ws == s.workers + [Worker(0, s.period + 1, WTop), Worker(1, s.period + 1, WTop)]
    requires r == s.(running := true, numWorkers := 2, period := s.period + 1, v := VTop,
                     handles := [Some(|s.workers|), Some(|s.workers| + 1)], workers := ws)
    ensures Reachable(r)
  {
    StartsNone(s);
    var a := s.(running := true, numWorkers := 2, period := s.period + 1, handles := [], k := KSpawning(2));
    SpawnsNext(a, 2);
    var one := s.workers + [Worker(0, s.period + 1, WTop)];
    var b := a.(workers := one, handles := [Some(|s.workers|)]);
    assert a.handles + [Some(|s.workers|)] == [Some(|s.workers|)];
    SpawnsNext(b, 2);
    assert one + [Worker(1, s.period + 1, WTop)] == ws;
    ReachStep(b.(workers := ws, handles := [Some(|s.workers|), Some(|s.workers| + 1)]), Control);
  }

  /** With the flag down, a worker at its loop head ends and reports its slot. */
  lemma LeavesLoop(s: State, t: nat)
    requires Reachable(s) && !s.running && t < |s.workers| && s.workers[t].pc == WTop && s.v == VTop
    ensures Reachable(SetPc(s, t, WDead).(finished := s.finished + [s.workers[t].slot]))
  {
    ReachStep(s, Work(t));
    ReportsAndEnds(Step(s, Work(t)), t);
    assert SetPc(SetPc(s, t, WExiting), t, WDead).workers == SetPc(s, t, WDead).workers;
  }

  lemma ReachStopping()
    ensures Reachable(Pair.(running := false, k := KNotifyTasks(None), finished := [0, 1],
              workers := [Worker(0, 1, WDead), Worker(1, 1, WDead)]))
  {
    assert Exec(Initial, []) == Initial;
    StartsTwo(Initial, Pair.workers, Pair);
    PairStops();
  }

  lemma PairStops()
    requires Reachable(Pair)
    ensures Reachable(Pair.(running := false, k := KNotifyTasks(None), finished := [0, 1],
              workers := [Worker(0, 1, WDead), Worker(1, 1, WDead)]))
  {
    ReachStep(Pair, CallStop);
    var a := Pair.(running := false, k := KNotifyTasks(None));
    LeavesLoop(a, 0);
    var b := a.(finished := [0], workers := [Worker(0, 1, WDead), Worker(1, 1, WTop)]);
    LeavesLoop(b, 1);
    assert SetPc(b, 1, WDead).workers == [Worker(0, 1, WDead), Worker(1, 1, WDead)];
  }

  lemma ReachStopped()
    ensures Reachable(Stopped)
  {
    ReachStopping();
    var a := Pair.(running := false, k := KNotifyTasks(None), finished := [0, 1],
                   workers := [Worker(0, 1, WDead), Worker(1, 1, WDead)]);
    ReachStep(a, Control);
    ReachStep(a.(k := KNotifyFinished(None)), Control);
    var b := a.(k := KJoin(0, None));
    ReachStep(b, Supervise);
    var c := b.(v := VExit);
    JoinsDead(c);
  }

  lemma JoinsDead(c: State)
    requires Reachable(c) && c == Stopped.(v := VExit, k := KJoin(0, None), handles := [Some(0), Some(1)])
    ensures Reachable(Stopped)
  {
    ReachStep(c, Control);
    var d := Step(c, Control);
    ReachStep(d, Control);
    var e := Step(d, Control);
    assert e == Stopped.(v := VExit, k := KJoin(2, None));
    ReachStep(e, Control);
    ReachStep(Step(e, Control), Control);
    assert Step(Step(e, Control), Control) == Stopped;
  }

  /** Nothing but `start(2)`, `stop` and `start(2)`: every worker of the first period has ended, and
      both its reports are still queued. From here a task can be stranded. */
  lemma OrdinaryRestartCanStrandATask()
    ensures Reachable(Again) && Again.period == 2 && Again.numWorkers == 2
    ensures forall t :: 0 <= t < |Again.workers| && Again.workers[t].period == 1 ==> Again.workers[t].pc.WDead?
    ensures CanStrand(Again)
  {
    ReachStopped();
    StartsTwo(Stopped, Again.workers, Again);
    assert Reachable(Again);
    var prefix :| Exec(Initial, prefix) == Again;
    AgainIsStale();
    StrandsIff(prefix);
  }

  lemma AgainIsStale()
    ensures Stale(Again, 0)
  {
    assert Live(Again, 0);
    assert multiset(Again.finished)[0] == 1;
  }
}

/** Exactly when a running pool can strand a task: hold it in the queue with no thread of the pool and
    no submitter able to move. */
module ThreadPoolStranded {
  import opened Wrappers
  import opened ThreadPool
  import opened ThreadPoolSafety
  import opened ThreadPoolProgress
  import opened ThreadPoolSettle
  import opened ThreadPoolFirstPeriod

  ghost predicate Stranded(s: State) { Up(s) && s.tasks != [] && Still(s) }

  ghost predicate SomeStale(s: State) { exists i: nat :: Stale(s, i) }

  /** A worker of an earlier period is still in its loop; or there are two slots and one of them has a
      report, queued, in hand or still to come from an earlier period, beyond the one its present
      thread owes once it has ended; or queued tasks have already lost everybody. */
  ghost predicate MayStrand(s: State)
  {
    !NoStray(s) || (|s.handles| >= 2 && SomeStale(s)) || Unserved(s)
  }

  // ---- Otherwise it cannot ------------------------------------------------------------------

  lemma AtRestNobodyServes(s: State)
    requires PoolInv(s) && Up(s) && Still(s) && s.tasks != [] && !Unserved(s)
    ensures exists i: nat, u: nat :: Jammed(s, i, u) && |s.handles| >= 2
  {
    StillMeans(s);
    if t: nat :| Awake(s, t) {
      assert false;
    } else if i: nat :| Vacant(s, i) {
      VacantAtRest(s, i);
    }
  }

  /** At rest a slot without a thread in its loop means that the supervisor is jammed at another. */
  lemma VacantAtRest(s: State, i: nat)
    requires PoolInv(s) && Up(s) && Still(s) && Vacant(s, i)
    ensures exists j: nat, u: nat :: Jammed(s, j, u) && |s.handles| >= 2
  {
    StillMeans(s);
    assert Accounted(s, i);
    if s.handles[i].Some? { assert Names(s, i, s.handles[i].value); }
    if !s.v.VWaiting? {
      var u: nat :| Jammed(s, s.v.id, u);
      assert i != s.v.id;
    }
  }

  lemma JammedIsStale(s: State, i: nat, u: nat)
    requires PoolInv(s) && Jammed(s, i, u)
    ensures Stale(s, i)
  {
    assert InHand(s.v, i) && Live(s, i);
  }

  lemma StrandedMayStrand(s: State)
    requires PoolInv(s) && Stranded(s)
    ensures MayStrand(s)
  {
    if !Unserved(s) {
      AtRestNobodyServes(s);
      var i: nat, u: nat :| Jammed(s, i, u) && |s.handles| >= 2;
      JammedIsStale(s, i, u);
    }
  }

  /** With nobody left over, no report goes stale. */
  lemma StepKeepsFresh(s: State, a: Action, i: nat)
    requires PoolInv(s) && Up(s) && !Ends(a) && NoStray(s) && !Stale(s, i) && i < |s.handles|
    ensures !Stale(Step(s, a), i)
  {
    var s' := Step(s, a);
    if a.Work? {
      if a.thread < |s.workers| {
        WorkExcess(s, a.thread, i);
        NoNewStrayReport(s, a, i);
      }
    } else if a.Supervise? {
      SuperviseExcess(s, i);
      NoNewStrayReport(s, a, i);
    } else {
      OtherExcess(s, a, i);
      NoNewStrayReport(s, a, i);
    }
  }

  lemma NoNewStrayReport(s: State, a: Action, i: nat)
    requires Up(s) && !Ends(a) && NoStray(s) && forall t: nat :: !StrayReport(s, i, t)
    ensures forall t: nat :: !StrayReport(Step(s, a), i, t)
  {
    var s' := Step(s, a);
    if a.Supervise? {
      NoNewStrayReportBySupervisor(s, i);
    } else if !a.Control? {
      IsWorkerSide(s, a);
      LeaversWereIn(s, a);
      forall t: nat ensures !StrayReport(s', i, t) { assert !StrayReport(s, i, t) && !Stray(s, t); }
    }
  }

  lemma LeaversWereIn(s: State, a: Action)
    requires !a.Supervise? && !a.Control? && !Ends(a)
    ensures var s' := Step(s, a);
      && |s'.workers| == |s.workers|
      && forall t :: 0 <= t < |s.workers| && s'.workers[t].pc.WExiting? ==> !Gone(s.workers[t].pc)
  {
    match a
    case Work(t) => if t < |s.workers| { WorkMovesOneWorker(s, t); WorkKeepsGone(s, t); }
    case _ =>
  }

  lemma WorkKeepsGone(s: State, t: nat)
    requires t < |s.workers|
    ensures Gone(s.workers[t].pc) ==> Gone(WorkStep(s, t).workers[t].pc)
  {
  }

  lemma NoNewStrayReportBySupervisor(s: State, i: nat)
    requires forall t: nat :: !StrayReport(s, i, t)
    ensures forall t: nat :: !StrayReport(SuperviseStep(s), i, t)
  {
    var s' := SuperviseStep(s);
    forall t: nat ensures !StrayReport(s', i, t) {
      assert !StrayReport(s, i, t);
      match s.v
      case VSpawn(_) =>
      case VHave(_) =>
      case VJoin(_) =>
      case VChecked =>
      case _ =>
    }
  }

  lemma StepStaysUp(s: State, a: Action)
    requires Up(s) && !Ends(a) && PhaseInv(s)
    ensures Up(Step(s, a)) && |Step(s, a).handles| == |s.handles|
  {
    if a.Supervise? {
      SuperviseTouchesLittle(s);
    } else if a.Control? {
    } else {
      IsWorkerSide(s, a);
    }
  }

  lemma StepKeepsSound(s: State, a: Action)
    requires PoolInv(s) && Up(s) && !Ends(a) && !MayStrand(s)
    ensures Up(Step(s, a)) && !MayStrand(Step(s, a))
  {
    var s' := Step(s, a);
    StepStaysUp(s, a);
    StepKeepsNoStray(s, a);
    StepNotStuck(s, a);
    if |s.handles| >= 2 {
      forall i: nat ensures !Stale(s', i) {
        if i < |s.handles| { StepKeepsFresh(s, a, i); }
      }
    }
  }

  lemma {:induction false} RunKeepsSound(s: State, schedule: seq<Action>)
    requires PoolInv(s) && Up(s) && WithinPeriod(schedule) && !MayStrand(s)
    ensures var s' := Exec(s, schedule); PoolInv(s') && Up(s') && !MayStrand(s')
    decreases |schedule|
  {
    if schedule != [] {
      var front := schedule[..|schedule| - 1];
      RunKeepsSound(s, front);
      StepKeepsSound(Exec(s, front), schedule[|schedule| - 1]);
      StepKeepsPool(Exec(s, front), schedule[|schedule| - 1]);
    }
  }

  /** The queue is never stuck while no worker of an earlier period is in its loop: in every
      continuation without `start` and `stop`, as long as tasks are queued, a worker of the pool is in
      its loop and not blocked, or a submitter still owes its notification, or a slot's thread has
      ended or is ending. Spurious wakeups and crashes anywhere are included. */
  lemma {:induction false} NoStuckQueue(s: State, schedule: seq<Action>)
    requires PoolInv(s) && Up(s) && NoStray(s) && !Unserved(s) && WithinPeriod(schedule)
    ensures var r := Exec(s, schedule);
      && PoolInv(r) && Up(r) && NoStray(r)
      && (r.tasks != [] ==>
            (exists t: nat :: Awake(r, t)) || (exists c: nat :: Owes(r, c)) || (exists i: nat :: Vacant(r, i)))
    decreases |schedule|
  {
    if schedule != [] {
      var front, a := schedule[..|schedule| - 1], schedule[|schedule| - 1];
      NoStuckQueue(s, front);
      StepKeepsPool(Exec(s, front), a);
      StepStaysUp(Exec(s, front), a);
      StepKeepsNoStray(Exec(s, front), a);
      StepNotStuck(Exec(s, front), a);
    }
  }

  // ---- If it may, it can --------------------------------------------------------------------

  ghost predicate CanStrand(s: State) { exists r :: Leads(s, r) && Stranded(r) }

  lemma CanStrandVia(s: State, t: State)
    requires Leads(s, t) && CanStrand(t)
    ensures CanStrand(s)
  {
    var r :| Leads(t, r) && Stranded(r);
    LeadsTrans(s, t, r);
  }

  lemma UnservedStrands(s: State)
    requires PoolInv(s) && Up(s) && Unserved(s)
    ensures CanStrand(s)
  {
    LeadsNowhere(s);
    LeadsStep(s, s, SetMax(1));
    var t := s.(maxQueue := 1);
    StepKeepsPool(s, SetMax(1));
    BarredByLimit(s, t);
    var r := Settle(t);
    assert Stranded(r);
    CanStrandVia(s, t);
  }

  /** With the limit lowered to 1, a submitter that waits for the lock is refused. */
  lemma BarredByLimit(s: State, t: State)
    requires Unserved(s) && t == s.(maxQueue := 1)
    ensures Barred(t)
  {
    forall u: nat ensures !Awake(t, u) { assert !Awake(s, u); }
    forall c: nat ensures !Owes(t, c) { assert !Owes(s, c); }
    forall i: nat ensures !Vacant(t, i) { assert !Vacant(s, i); }
  }

  /** A pool at rest with an empty queue. */
  ghost predicate Idle(s: State) { PoolInv(s) && Up(s) && Still(s) && s.tasks == [] }

  /** `s` after a task was submitted, worker `t` was notified of it, and crashed. */
  function NotificationLost(s: State, t: nat, x: Task): State
    requires t < |s.workers|
  {
    SetPc(s, t, WExiting).(tasks := [x], accepted := s.accepted + [x], calls := s.calls + [Done(true)])
  }

  lemma LosesNotification(s: State, t: nat, x: Task)
    requires Idle(s) && IsWaiting(s, t)
    ensures Leads(s, NotificationLost(s, t, x))
  {
    StillMeans(s);
    LeadsNowhere(s);
    LeadsStep(s, s, Submit(Some(x)));
    var a := Step(s, Submit(Some(x)));
    var c := |s.calls|;
    assert a == s.(calls := s.calls + [WantsLock(x)]);
    LeadsStep(s, a, Enqueue(c));
    var b := Step(a, Enqueue(c));
    EnqueuesFirst(s, a, x);
    LeadsStep(s, b, Notify(c, t));
    var d := Step(b, Notify(c, t));
    assert d == SetPc(s, t, WWake).(tasks := [x], accepted := s.accepted + [x], calls := s.calls + [Done(true)]);
    LeadsStep(s, d, Crash(t));
    CrashesAwake(s, d, t, x);
  }

  lemma EnqueuesFirst(s: State, a: State, x: Task)
    requires s.tasks == [] && s.lock == None && a == s.(calls := s.calls + [WantsLock(x)])
    ensures Step(a, Enqueue(|s.calls|))
         == s.(tasks := [x], accepted := s.accepted + [x], calls := s.calls + [OwesNotify])
  {
    assert a.calls[|s.calls| := OwesNotify] == s.calls + [OwesNotify];
    assert [] + [x] == [x];
  }

  lemma CrashesAwake(s: State, d: State, t: nat, x: Task)
    requires t < |s.workers| && s.lock == None
    requires d == SetPc(s, t, WWake).(tasks := [x], accepted := s.accepted + [x], calls := s.calls + [Done(true)])
    ensures Step(d, Crash(t)) == NotificationLost(s, t, x)
  {
    assert d.workers[t := d.workers[t].(pc := WExiting)] == s.workers[t := s.workers[t].(pc := WExiting)];
  }

  /** The supervisor is jammed at one worker and another crashes: nobody is left to act. */
  lemma JammedLoses(s: State, i: nat, u: nat, t: nat)
    requires Idle(s) && Jammed(s, i, u) && IsWaiting(s, t) && t != u
    ensures CanStrand(s)
  {
    var x: Task := 0;
    LosesNotification(s, t, x);
    var b := NotificationLost(s, t, x);
    LeadsStep(s, b, Work(t));
    var c := Step(b, Work(t));
    assert c == SetPc(b, t, WPushed).(finished := s.finished + [s.workers[t].slot]);
    LeadsStep(s, c, Work(t));
    var d := Step(c, Work(t));
    assert d == SetPc(c, t, WDead);
    JammedAtRest(s, d, i, u, t);
  }

  lemma JammedAtRest(s: State, d: State, i: nat, u: nat, t: nat)
    requires Idle(s) && Jammed(s, i, u) && IsWaiting(s, t) && t != u
    requires d.v == s.v && d.k == s.k && d.running && d.handles == s.handles && d.tasks != []
    requires d.lock == s.lock && d.calls == s.calls + [Done(true)]
    requires |d.workers| == |s.workers| && d.workers[t].pc == WDead
    requires forall w :: 0 <= w < |s.workers| && w != t ==> d.workers[w] == s.workers[w]
    ensures Stranded(d)
  {
    StillMeans(s);
    assert SuperviseStep(d) == d;
    forall w: nat ensures WorkStep(d, w) == d {
      if w < |s.workers| { assert d.workers[w].pc.WDead? || d.workers[w].pc.WWaiting?; }
    }
    forall c: nat ensures !Owes(d, c) && EnqueueStep(d, c) == d {
      if c < |s.calls| { assert !Owes(s, c) && !Wants(s, c); }
    }
  }

  /** A worker of an earlier period takes the only notification with it. */
  lemma StrayStrands(s: State, t: nat)
    requires Idle(s) && Stray(s, t)
    ensures CanStrand(s)
  {
    StillMeans(s);
    assert IsWaiting(s, t);
    if s.v.VWaiting? {
      var x: Task := 0;
      LosesNotification(s, t, x);
      var b := NotificationLost(s, t, x);
      LossIsUnserved(s, t, x);
      LossKeepsPool(s, t, x);
      UnservedStrands(b);
      CanStrandVia(s, b);
    } else {
      var u: nat :| Jammed(s, s.v.id, u);
      JammedLoses(s, s.v.id, u, t);
    }
  }

  lemma LossIsUnserved(s: State, t: nat, x: Task)
    requires Idle(s) && Stray(s, t) && s.v.VWaiting?
    ensures Unserved(NotificationLost(s, t, x))
  {
    StillMeans(s);
    var b := NotificationLost(s, t, x);
    forall w: nat ensures !Awake(b, w) {
      if w < |s.workers| { assert s.workers[w].pc.WDead? || s.workers[w].pc.WWaiting?; }
    }
    forall c: nat ensures !Owes(b, c) { if c < |s.calls| { assert !Owes(s, c); } }
    forall i: nat ensures !Vacant(b, i) {
      if i < |s.handles| {
        assert Accounted(s, i) && Live(s, i);
        assert Names(s, i, s.handles[i].value);
      }
    }
  }

  lemma LossKeepsPool(s: State, t: nat, x: Task)
    requires PoolInv(s) && t < |s.workers| && Leads(s, NotificationLost(s, t, x))
    ensures PoolInv(NotificationLost(s, t, x))
  {
    var schedule :| WithinPeriod(schedule) && Exec(s, schedule) == NotificationLost(s, t, x);
    PoolThrough(s, schedule);
  }

  lemma {:induction false} PoolThrough(s: State, schedule: seq<Action>)
    requires PoolInv(s)
    ensures PoolInv(Exec(s, schedule))
    decreases |schedule|
  {
    if schedule != [] {
      var front := schedule[..|schedule| - 1];
      PoolThrough(s, front);
      StepKeepsPool(Exec(s, front), schedule[|schedule| - 1]);
    }
  }

  // ---- A stale report jams the supervisor ---------------------------------------------------

  lemma IdleStaleIsJammed(s: State, i: nat)
    requires Idle(s) && Stale(s, i)
    ensures s.v.VJoin? && exists u: nat :: Jammed(s, s.v.id, u)
  {
    StillMeans(s);
    if s.v.VWaiting? { WaitingIsFresh(s, i); }
  }

  lemma WaitingIsFresh(s: State, i: nat)
    requires Idle(s) && s.v.VWaiting?
    ensures !Stale(s, i)
  {
    StillMeans(s);
    if i < |s.handles| { assert Accounted(s, i); }
  }

  /** `s` after the worker the supervisor is jammed at has crashed and reported, and the supervisor has
      joined it. */
  function Unjammed(s: State, id: nat, u: nat): State
    requires u < |s.workers| && id < |s.handles|
  {
    SetPc(s, u, WDead).(finished := s.finished + [id], v := VJoined(id), handles := s.handles[id := None])
  }

  lemma Unjams(s: State, id: nat, u: nat)
    requires Idle(s) && Jammed(s, id, u)
    ensures u < |s.workers| && id < |s.handles| && Leads(s, Unjammed(s, id, u))
  {
    StillMeans(s);
    assert s.workers[u].slot == id;
    LeadsNowhere(s);
    LeadsStep(s, s, Crash(u));
    var a := Step(s, Crash(u));
    assert a == SetPc(s, u, WExiting);
    LeadsStep(s, a, Work(u));
    var b := Step(a, Work(u));
    assert b == SetPc(s, u, WPushed).(finished := s.finished + [id]);
    LeadsStep(s, b, Work(u));
    var c := Step(b, Work(u));
    assert c == SetPc(s, u, WDead).(finished := s.finished + [id]);
    LeadsStep(s, c, Supervise);
    assert Step(c, Supervise) == Unjammed(s, id, u);
  }

  /** `s` after the supervisor has replaced the thread of slot `id` and taken up the next report. */
  function Replaced(s: State, id: nat): State
    requires id < |s.handles| && s.finished != []
  {
    s.(workers := s.workers + [Worker(id, s.period, WTop)], handles := s.handles[id := Some(|s.workers|)],
       v := VHave(s.finished[0]), finished := s.finished[1..])
  }

  lemma Replaces(s0: State, s: State, id: nat)
    requires Leads(s0, s) && s.running && s.v == VJoined(id) && id < |s.handles| && s.finished != []
    ensures Leads(s0, Replaced(s, id))
  {
    LeadsStep(s0, s, Supervise);
    var a := Step(s, Supervise);
    LeadsStep(s0, a, Supervise);
    var b := Step(a, Supervise);
    assert b == s.(workers := s.workers + [Worker(id, s.period, WTop)],
                   handles := s.handles[id := Some(|s.workers|)], v := VTop);
    TakesUp(s0, b);
    assert b.(v := VHave(b.finished[0]), finished := b.finished[1..]) == Replaced(s, id);
  }

  lemma TakesUp(s0: State, b: State)
    requires Leads(s0, b) && b.running && b.v == VTop && b.finished != []
    ensures Leads(s0, b.(v := VHave(b.finished[0]), finished := b.finished[1..]))
  {
    LeadsStep(s0, b, Supervise);
    var c := b.(v := VWantLock);
    assert c == Step(b, Supervise);
    LeadsStep(s0, c, Supervise);
    var d := b.(v := VLoop);
    assert d == Step(c, Supervise);
    LeadsStep(s0, d, Supervise);
    var e := b.(v := VChecked);
    assert e == Step(d, Supervise);
    LeadsStep(s0, e, Supervise);
  }

  /** Replacing the jammed worker leaves a stale report and brings slot `j` nearer to its turn. */
  lemma NextTurn(s: State, id: nat, u: nat, j: nat)
    requires Idle(s) && Jammed(s, id, u) && j != id && j < |s.handles| && !Live(s, j)
    ensures u < |s.workers| && id < |s.handles|
    ensures var r := Replaced(Unjammed(s, id, u), id);
      && |r.handles| == |s.handles| && Up(r) && r.period == s.period
      && Stale(r, id) && Manned(r, id) && !Live(r, j) && Behind(r, j) < Behind(s, j)
  {
    var m := Unjammed(s, id, u);
    var r := Replaced(m, id);
    assert Accounted(s, j) && j in s.finished;
    FirstSnoc(s.finished, j, id);
    ReportsSnoc(s.finished, id, id);
    ReportsTaken(m.finished, id);
    assert Live(r, id) && Live(s, id);
    if s.handles[j].Some? { assert Names(s, j, s.handles[j].value); }
  }

  lemma {:induction false} RevivedStrands(s: State, id: nat, u: nat, j: nat)
    requires Idle(s) && Jammed(s, id, u) && j != id && j < |s.handles| && !Live(s, j)
    ensures CanStrand(s)
    decreases Behind(s, j)
  {
    Unjams(s, id, u);
    Replaces(s, Unjammed(s, id, u), id);
    NextTurn(s, id, u, j);
    var m := Replaced(Unjammed(s, id, u), id);
    PoolAlong(s, m);
    var r := Settle(m);
    LeadsTrans(s, m, r);
    if r.tasks != [] {
      assert Stranded(r);
    } else {
      assert SlotKept(m, r, id) && SlotKept(m, r, j);
      IdleStaleIsJammed(r, id);
      var w: nat :| Jammed(r, r.v.id, w);
      if r.v.id == j {
        MannedSlotStrands(r, j, w, id);
      } else if Manned(r, j) {
        MannedSlotStrands(r, r.v.id, w, j);
      } else {
        RevivedStrands(r, r.v.id, w, j);
      }
      CanStrandVia(s, r);
    }
  }

  lemma PoolAlong(s: State, r: State)
    requires PoolInv(s) && Leads(s, r)
    ensures PoolInv(r)
  {
    var schedule :| WithinPeriod(schedule) && Exec(s, schedule) == r;
    PoolThrough(s, schedule);
  }

  lemma MannedSlotStrands(s: State, i: nat, u: nat, j: nat)
    requires Idle(s) && Jammed(s, i, u) && j != i && Manned(s, j)
    ensures CanStrand(s)
  {
    StillMeans(s);
    var t := s.handles[j].value;
    assert Names(s, j, t) && IsWaiting(s, t) && s.workers[t].slot == j && s.workers[u].slot == i;
    JammedLoses(s, i, u, t);
  }

  lemma StaleStrands(s: State, i: nat)
    requires Idle(s) && |s.handles| >= 2 && Stale(s, i)
    ensures CanStrand(s)
  {
    IdleStaleIsJammed(s, i);
    var id := s.v.id;
    var u: nat :| Jammed(s, id, u);
    var j := if id == 0 then 1 else 0;
    if Live(s, j) {
      StillMeans(s);
      assert Names(s, j, s.handles[j].value);
      MannedSlotStrands(s, id, u, j);
    } else {
      RevivedStrands(s, id, u, j);
    }
  }

  // ---- The exact condition ------------------------------------------------------------------

  lemma MayStrandCan(s: State)
    requires PoolInv(s) && Up(s) && MayStrand(s)
    ensures CanStrand(s)
  {
    var r := Settle(s);
    if Unserved(s) {
      UnservedStrands(s);
    } else if r.tasks != [] {
      assert Stranded(r);
    } else if t: nat :| Stray(r, t) {
      StrayStrands(r, t);
      CanStrandVia(s, r);
    } else {
      assert NoStray(s) && !Unserved(s);
      var i: nat :| Stale(s, i);
      assert SlotKept(s, r, i);
      StaleStrands(r, i);
      CanStrandVia(s, r);
    }
  }

  /** In every reachable state of a running pool whose `start` has returned: some continuation without
      `start` and `stop` strands a task exactly if a worker of an earlier period is still in its loop,
      or there are two slots and a report beyond those that the slots' present threads owe, or queued
      tasks have already lost everybody who would take them. */
  lemma StrandsIff(prefix: seq<Action>)
    requires Up(Exec(Initial, prefix))
    ensures CanStrand(Exec(Initial, prefix)) <==> MayStrand(Exec(Initial, prefix))
  {
    var s := Exec(Initial, prefix);
    ReachablePool(prefix);
    if MayStrand(s) { MayStrandCan(s); }
    if CanStrand(s) && !MayStrand(s) {
      var r :| Leads(s, r) && Stranded(r);
      var schedule :| WithinPeriod(schedule) && Exec(s, schedule) == r;
      RunKeepsSound(s, schedule);
      StrandedMayStrand(r);
    }
  }

  /** The moves of workers, supervisor and submitters alone bring a running pool to rest: they can
      change its state at most `Backlog` times. */
  lemma {:induction false} ServiceIsBounded(s: State, schedule: seq<Action>)
    requires PoolInv(s) && Up(s) && forall i :: 0 <= i < |schedule| ==> IsMove(schedule[i])
    ensures var r := Exec(s, schedule);
      PoolInv(r) && Up(r) && Moves(s, schedule) + Backlog(r) <= Backlog(s)
    decreases |schedule|
  {
    if schedule != [] {
      var front, a := schedule[..|schedule| - 1], schedule[|schedule| - 1];
      ServiceIsBounded(s, front);
      StepKeepsPool(Exec(s, front), a);
      StepStaysUp(Exec(s, front), a);
      ServiceLowersBacklog(Exec(s, front), a);
    }
  }

  /** Where the condition does not hold, a pool that has come to rest has emptied its queue, whatever
      came before. */
  lemma QueueEmptiesAtRest(s: State, schedule: seq<Action>)
    requires PoolInv(s) && Up(s) && !MayStrand(s) && WithinPeriod(schedule) && Still(Exec(s, schedule))
    ensures Exec(s, schedule).tasks == []
  {
    RunKeepsSound(s, schedule);
    if Exec(s, schedule).tasks != [] { StrandedMayStrand(Exec(s, schedule)); }
  }

  // ---- The first period ---------------------------------------------------------------------

  ghost predicate FirstServed(s: State) { s.period <= 1 ==> NotStuck(s) }

  lemma {:induction false} ReachableFirstServed(schedule: seq<Action>)
    ensures FirstServed(Exec(Initial, schedule))
    decreases |schedule|
  {
    if schedule != [] {
      var front := schedule[..|schedule| - 1];
      ReachableFirstServed(front);
      ReachableFirst(front);
      ReachableSafe(front);
      var s := Exec(Initial, front);
      if s.period <= 1 { StepNotStuck(s, schedule[|schedule| - 1]); }
      PeriodGrows(s, schedule[|schedule| - 1]);
    }
  }

  lemma PeriodGrows(s: State, a: Action)
    ensures s.period <= Step(s, a).period
  {
    if !a.Supervise? && !a.Control? && !Ends(a) {
      IsWorkerSide(s, a);
    } else if a.Supervise? {
      match s.v
      case VSpawn(_) =>
      case VHave(_) =>
      case VJoin(_) =>
      case VChecked =>
      case _ =>
    }
  }

  lemma FirstPeriodIsFresh(s: State, i: nat)
    requires PoolInv(s) && FirstInv(s) && s.period == 1 && s.running
    ensures !Stale(s, i)
  {
    if i < |s.handles| {
      assert Accounted(s, i);
      CountOnce(s.finished, i);
      if i in s.finished {
        var j :| 0 <= j < |s.finished| && s.finished[j] == i;
        assert Ended(s, s.finished[j]) && !InHand(s.v, s.finished[j]);
      }
    }
  }

  lemma {:induction false} CountOnce(q: seq<nat>, x: nat)
    requires Distinct(q)
    ensures multiset(q)[x] == if x in q then 1 else 0
  {
    if q != [] {
      assert Distinct(q[1..]);
      CountOnce(q[1..], x);
      ReportsTaken(q, x);
    }
  }

  /** Between the first `start` and the next `stop` nothing can be stranded. */
  lemma FirstPeriodIsSound(schedule: seq<Action>)
    ensures var s := Exec(Initial, schedule); s.period == 1 && Up(s) ==> !MayStrand(s)
  {
    var s := Exec(Initial, schedule);
    ReachablePool(schedule);
    ReachableFirst(schedule);
    ReachableFirstServed(schedule);
    if s.period == 1 && Up(s) {
      if i: nat :| Stale(s, i) { FirstPeriodIsFresh(s, i); }
    }
  }

  /** Between the first `start` and the next `stop` no schedule strands a task. */
  lemma FirstPeriodNeverStranded(schedule: seq<Action>)
    ensures var s := Exec(Initial, schedule); s.period == 1 ==> !Stranded(s)
  {
    var s := Exec(Initial, schedule);
    ReachablePool(schedule);
    FirstPeriodIsSound(schedule);
    if s.period == 1 && Stranded(s) { StrandedMayStrand(s); }
  }
}

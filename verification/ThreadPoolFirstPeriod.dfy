/** Between the first `start` and the next `stop`, the supervisor's bookkeeping is exact: the
    finished queue holds distinct slots of workers that have ended, and live, queued and in-hand
    slots partition the slot table. Later periods can inherit stale reports and stray workers. */
module ThreadPoolFirstPeriod {
  import opened Wrappers
  import opened ThreadPool
  import opened ThreadPoolSafety
  import opened ThreadPoolProgress

  ghost predicate Distinct(q: seq<nat>) { forall a, b :: 0 <= a < b < |q| ==> q[a] != q[b] }

  /** Slot `i` names a thread that has reported its end. */
  predicate Ended(s: State, i: nat)
  {
    && i < |s.handles| && s.handles[i].Some? && s.handles[i].value < |s.workers|
    && Gone(s.workers[s.handles[i].value].pc)
  }

  ghost predicate ReportInv(s: State)
  {
    && Distinct(s.finished)
    && (forall j :: 0 <= j < |s.finished| ==> Ended(s, s.finished[j]) && !InHand(s.v, s.finished[j]))
    && (forall i: nat :: InHand(s.v, i) ==> i < |s.handles| && !Live(s, i))
  }

  ghost predicate FirstInv(s: State)
  {
    && (s.period == 0 ==> !s.running && s.v.VNone? && s.workers == [] && s.finished == [])
    && (s.period <= 1 ==> forall t :: 0 <= t < |s.workers| ==> s.workers[t].period == s.period)
    && (s.period == 1 && s.running ==> ReportInv(s))
  }

  lemma WorkKeepsReports(s: State, t: nat)
    requires SafeInv(s) && FirstInv(s) && ReportInv(s) && s.period == 1
    ensures ReportInv(WorkStep(s, t))
  {
    var s' := WorkStep(s, t);
    WorkMovesOneWorker(s, t);
    WorkTouchesLittle(s, t);
    if t < |s.workers| {
      WorkReportsOnce(s, t);
      forall j | 0 <= j < |s'.finished| ensures Ended(s', s'.finished[j]) && !InHand(s'.v, s'.finished[j]) {
        if j < |s.finished| {
          assert Ended(s, s.finished[j]) && !InHand(s.v, s.finished[j]);
        } else {
          assert Names(s, s.workers[t].slot, t);
          assert Live(s, s.workers[t].slot);
        }
      }
      forall i: nat | InHand(s'.v, i) ensures i < |s'.handles| && !Live(s', i) {
        assert InHand(s.v, i);
      }
    }
  }

  /** A worker adds at most its own slot, when it stops being live. */
  lemma WorkReportsOnce(s: State, t: nat)
    requires t < |s.workers|
    ensures var s' := WorkStep(s, t);
      && |s'.workers| == |s.workers|
      && (s'.finished == s.finished
          || (s'.finished == s.finished + [s.workers[t].slot]
              && s.workers[t].pc.WExiting? && Gone(s'.workers[t].pc)))
      && (Gone(s.workers[t].pc) ==> Gone(s'.workers[t].pc))
  {
    match s.workers[t].pc
    case WExiting =>
    case WPushed =>
    case WDead =>
    case _ =>
  }

  lemma SpawnForSlotKeepsReports(s: State)
    requires SafeInv(s) && ReportInv(s) && s.v.VSpawn?
    ensures ReportInv(SuperviseStep(s))
  {
    var s' := SuperviseStep(s);
    assert InHand(s.v, s.v.id);
    forall j | 0 <= j < |s'.finished| ensures Ended(s', s'.finished[j]) {
      assert Ended(s, s.finished[j]) && !InHand(s.v, s.finished[j]);
    }
  }

  lemma JoinKeepsReports(s: State)
    requires SafeInv(s) && ReportInv(s) && s.v.VJoin?
    ensures ReportInv(SuperviseStep(s))
  {
    var s' := SuperviseStep(s);
    assert InHand(s.v, s.v.id);
    forall j | 0 <= j < |s'.finished| ensures Ended(s', s'.finished[j]) && !InHand(s'.v, s'.finished[j]) {
      assert Ended(s, s.finished[j]) && !InHand(s.v, s.finished[j]);
    }
  }

  lemma TakeReportKeepsReports(s: State)
    requires SafeInv(s) && ReportInv(s) && s.v.VChecked?
    ensures ReportInv(SuperviseStep(s))
  {
    var s' := SuperviseStep(s);
    if s.running && s.finished != [] {
      assert Ended(s, s.finished[0]);
      assert forall j :: 0 <= j < |s'.finished| ==> s'.finished[j] == s.finished[j + 1];
    }
  }

  lemma SuperviseKeepsReports(s: State)
    requires SafeInv(s) && ReportInv(s)
    ensures ReportInv(SuperviseStep(s))
  {
    match s.v
    case VChecked => TakeReportKeepsReports(s);
    case VHave(id) => PassOnKeepsReports(s, SuperviseStep(s));
    case VJoin(id) => JoinKeepsReports(s);
    case VJoined(id) => PassOnKeepsReports(s, SuperviseStep(s));
    case VSpawn(id) => SpawnForSlotKeepsReports(s);
    case _ => PassOnKeepsReports(s, SuperviseStep(s));
  }

  /** Only the supervisor's place changes, and it takes up no other slot. */
  lemma PassOnKeepsReports(s: State, s': State)
    requires ReportInv(s) && s'.workers == s.workers && s'.handles == s.handles && s'.finished == s.finished
    requires forall i: nat :: InHand(s'.v, i) ==> InHand(s.v, i)
    ensures ReportInv(s')
  {
    forall j | 0 <= j < |s'.finished| ensures Ended(s', s'.finished[j]) && !InHand(s'.v, s'.finished[j]) {
      assert Ended(s, s.finished[j]) && !InHand(s.v, s.finished[j]);
    }
    forall i: nat | InHand(s'.v, i) ensures i < |s'.handles| && !Live(s', i) {
      assert InHand(s.v, i);
    }
  }

  lemma OthersKeepReports(s: State, a: Action)
    requires ReportInv(s) && !a.Work? && !a.Supervise? && !a.Control?
    ensures ReportInv(Step(s, a))
  {
    var s' := Step(s, a);
    assert s'.handles == s.handles && s'.finished == s.finished;
    assert forall i: nat :: InHand(s'.v, i) <==> InHand(s.v, i);
    assert |s'.workers| == |s.workers|;
    assert forall u :: 0 <= u < |s.workers| ==> (Gone(s'.workers[u].pc) <==> Gone(s.workers[u].pc));
    forall j | 0 <= j < |s'.finished| ensures Ended(s', s'.finished[j]) {
      assert Ended(s, s.finished[j]);
    }
  }

  lemma SpawnKeepsReports(s: State)
    requires SafeInv(s) && ReportInv(s) && s.k.KSpawning?
    ensures ReportInv(ControlStep(s))
  {
    var s' := ControlStep(s);
    forall j | 0 <= j < |s'.finished| ensures Ended(s', s'.finished[j]) && !InHand(s'.v, s'.finished[j]) {
      assert Ended(s, s.finished[j]) && !InHand(s.v, s.finished[j]);
    }
  }

  lemma ControlKeepsFirst(s: State)
    requires SafeInv(s) && FirstInv(s)
    ensures FirstInv(ControlStep(s))
  {
    match s.k
    case KSpawning(n) =>
      if s.period == 1 { SpawnKeepsReports(s); }
    case KStarting(n) =>
    case _ =>
  }

  lemma WorkKeepsFirst(s: State, t: nat)
    requires SafeInv(s) && FirstInv(s)
    ensures FirstInv(WorkStep(s, t))
  {
    WorkMovesOneWorker(s, t);
    WorkTouchesLittle(s, t);
    if t < |s.workers| && s.period == 1 && s.running { WorkKeepsReports(s, t); }
  }

  lemma SuperviseKeepsFirst(s: State)
    requires SafeInv(s) && FirstInv(s)
    ensures FirstInv(SuperviseStep(s))
  {
    SuperviseThreads(s);
    if s.period == 1 && s.running { SuperviseKeepsReports(s); }
  }

  lemma SuperviseThreads(s: State)
    ensures var s' := SuperviseStep(s);
      && s'.running == s.running && s'.period == s.period
      && (s.v.VNone? ==> s' == s)
      && (forall t :: 0 <= t < |s'.workers| ==>
            s'.workers[t].period == if t < |s.workers| then s.workers[t].period else s.period)
  {
    match s.v
    case VSpawn(_) =>
    case VHave(_) =>
    case VJoin(_) =>
    case VChecked =>
    case _ =>
  }

  lemma OthersKeepFirst(s: State, a: Action)
    requires FirstInv(s) && !a.Work? && !a.Supervise? && !a.Control?
    ensures FirstInv(Step(s, a))
  {
    IsWorkerSideOrCall(s, a);
    if s.period == 1 && s.running { OthersKeepReports(s, a); }
  }

  lemma StepKeepsFirst(s: State, a: Action)
    requires SafeInv(s) && FirstInv(s)
    ensures FirstInv(Step(s, a))
  {
    match a
    case Work(t) => WorkKeepsFirst(s, t);
    case Supervise => SuperviseKeepsFirst(s);
    case Control => ControlKeepsFirst(s);
    case _ => OthersKeepFirst(s, a);
  }

  lemma IsWorkerSideOrCall(s: State, a: Action)
    requires FirstInv(s) && !a.Work? && !a.Supervise? && !a.Control?
    ensures var s' := Step(s, a);
      && |s'.workers| == |s.workers| && s'.period == s.period && s'.finished == s.finished
      && (s'.running ==> s.running) && (s.v.VNone? ==> s'.v.VNone?)
      && forall u :: 0 <= u < |s.workers| ==> s'.workers[u].period == s.workers[u].period
  {
  }

  lemma {:induction false} ReachableFirst(schedule: seq<Action>)
    ensures FirstInv(Exec(Initial, schedule))
    decreases |schedule|
  {
    if schedule != [] {
      var front := schedule[..|schedule| - 1];
      ReachableFirst(front);
      ReachableSafe(front);
      StepKeepsFirst(Exec(Initial, front), schedule[|schedule| - 1]);
    }
  }

  // ---- Counting -----------------------------------------------------------------------------

  function Members(q: seq<nat>): set<nat> { set x | x in q }

  lemma {:induction false} DistinctCount(q: seq<nat>)
    requires Distinct(q)
    ensures |Members(q)| == |q|
  {
    if q != [] {
      DistinctCount(q[1..]);
      assert Members(q) == {q[0]} + Members(q[1..]);
      assert q[0] !in Members(q[1..]);
    }
  }

  function UpTo(n: nat): (r: set<nat>)
    ensures |r| == n
    ensures forall i: nat :: i in r <==> i < n
  {
    if n == 0 then {} else UpTo(n - 1) + {n - 1}
  }

  ghost function LiveSlots(s: State): set<nat> { set i | i in UpTo(|s.handles|) && Live(s, i) }

  ghost function HandSlots(s: State): set<nat> { set i | i in UpTo(|s.handles|) && InHand(s.v, i) }

  lemma PartitionCount(all: set<nat>, a: set<nat>, b: set<nat>, c: set<nat>)
    requires all == a + b + c && a !! b && a !! c && b !! c
    ensures |all| == |a| + |b| + |c|
  {
    assert |a + b| == |a| + |b|;
    assert |a + b + c| == |a + b| + |c|;
  }

  /** In every reachable state between the first `start` and the next `stop`: the queued slots are
      distinct and name workers that have reported their end; and live slots, queued slots and the
      slot in the supervisor's hands add up to the slots created so far, which are all of
      `numWorkers` once `start` has returned. No worker of an earlier period exists. */
  lemma FirstPeriodSlots(schedule: seq<Action>)
    ensures var s := Exec(Initial, schedule);
      s.period == 1 && s.running ==>
        && Distinct(s.finished)
        && (forall j :: 0 <= j < |s.finished| ==> Ended(s, s.finished[j]))
        && |LiveSlots(s)| + |s.finished| + |HandSlots(s)| == |s.handles|
        && (s.k.KIdle? ==> |s.handles| == s.numWorkers)
        && NoStray(s)
  {
    var s := Exec(Initial, schedule);
    ReachableFirst(schedule);
    ReachableSafe(schedule);
    ReachableSlots(schedule);
    if s.period == 1 && s.running {
      var q := Members(s.finished);
      DistinctCount(s.finished);
      var all := UpTo(|s.handles|);
      assert all == LiveSlots(s) + q + HandSlots(s) by { CoverAll(s); }
      assert LiveSlots(s) !! q && q !! HandSlots(s) && LiveSlots(s) !! HandSlots(s) by { NoOverlap(s); }
      PartitionCount(all, LiveSlots(s), q, HandSlots(s));
    }
  }

  lemma CoverAll(s: State)
    requires ReportInv(s) && SlotInv(s) && s.running
    ensures UpTo(|s.handles|) == LiveSlots(s) + Members(s.finished) + HandSlots(s)
  {
    forall i: nat | i < |s.handles| ensures i in LiveSlots(s) + Members(s.finished) + HandSlots(s) {
      assert Accounted(s, i);
    }
    forall i | i in Members(s.finished) ensures i < |s.handles| {
      var j :| 0 <= j < |s.finished| && s.finished[j] == i;
      assert Ended(s, s.finished[j]);
    }
  }

  lemma NoOverlap(s: State)
    requires ReportInv(s)
    ensures LiveSlots(s) !! Members(s.finished)
    ensures Members(s.finished) !! HandSlots(s)
    ensures LiveSlots(s) !! HandSlots(s)
  {
    forall i | i in Members(s.finished) ensures !Live(s, i) && !InHand(s.v, i) {
      var j :| 0 <= j < |s.finished| && s.finished[j] == i;
      assert Ended(s, s.finished[j]);
    }
  }

  /** In the first period the supervisor never waits for a worker that has not reported its end. */
  lemma JoinsOnlyEndedWorkers(schedule: seq<Action>)
    ensures var s := Exec(Initial, schedule);
      s.period == 1 && s.running && s.v.VJoin? ==> !Live(s, s.v.id)
  {
    ReachableFirst(schedule);
    var s := Exec(Initial, schedule);
    if s.v.VJoin? { assert InHand(s.v, s.v.id); }
  }
}

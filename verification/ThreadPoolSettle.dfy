/** A running pool that is left alone comes to rest: with no new submissions, crashes, spurious
    wakeups, starts or stops, its threads and the submitters already under way make only boundedly many
    moves, and these moves keep what later decides whether a task can be stranded. */
module ThreadPoolSettle {
  import opened Wrappers
  import opened ThreadPool
  import opened ThreadPoolSafety
  import opened ThreadPoolProgress

  /** Neither a thread of the pool nor a submitter whose call has begun can move. */
  ghost predicate Still(s: State)
  {
    && SuperviseStep(s) == s && (forall t: nat :: WorkStep(s, t) == s)
    && NoneOwes(s) && forall c: nat :: EnqueueStep(s, c) == s
  }

  ghost predicate PoolInv(s: State) { SafeInv(s) && SlotInv(s) && AlertInv(s) }

  lemma StepKeepsPool(s: State, a: Action)
    requires PoolInv(s)
    ensures PoolInv(Step(s, a))
  {
    StepKeepsSafe(s, a);
    StepKeepsSlots(s, a);
    StepKeepsAlert(s, a);
  }

  lemma {:induction false} ReachablePool(schedule: seq<Action>)
    ensures PoolInv(Exec(Initial, schedule))
    decreases |schedule|
  {
    if schedule != [] {
      var front := schedule[..|schedule| - 1];
      ReachablePool(front);
      StepKeepsPool(Exec(Initial, front), schedule[|schedule| - 1]);
    }
  }

  /** The pool is running and `start` has returned. */
  predicate Up(s: State) { s.running && s.k.KIdle? }

  // ---- The bound ----------------------------------------------------------------------------

  /** `empty`: whether the task queue is. A worker that has left the wait loop without a task to take
      goes round once more. */
  function WorkRank(pc: WorkerPc, empty: bool): nat
  {
    match pc
    case WDead => 0
    case WPushed => 1
    case WExiting => 25
    case WTop => 6
    case WWantLock => 5
    case WWake => 5
    case WLoop => 4
    case WChecked => if empty then 7 else 3
    case WHas(_) => 7
    case WWaiting => 0
    case WAboutToWait => 1
  }

  function SupervisorRank(v: SupervisorPc, empty: bool): nat
  {
    match v
    case VNone => 0
    case VExit => 0
    case VWaiting => 0
    case VAboutToWait => 1
    case VChecked => if empty then 6 else 2
    case VLoop => 3
    case VWantLock => 4
    case VWake => 4
    case VTop => 5
    case VSpawn(_) => 12
    case VJoined(_) => 13
    case VJoin(_) => 14
    case VHave(_) => 15
  }

  function Ranks(ws: seq<Worker>, empty: bool): nat
  {
    if ws == [] then 0 else Ranks(ws[..|ws| - 1], empty) + WorkRank(ws[|ws| - 1].pc, empty)
  }

  /** A call that enqueues adds a task and then owes a notification, which may wake a worker. */
  function CallRank(call: Call): nat
  {
    match call
    case Done(_) => 0
    case OwesNotify => 6
    case WantsLock(_) => 12
  }

  function Owing(calls: seq<Call>): nat
  {
    if calls == [] then 0 else Owing(calls[..|calls| - 1]) + CallRank(calls[|calls| - 1])
  }

  function Backlog(s: State): nat
  {
    Ranks(s.workers, s.tasks == []) + 5 * |s.tasks| + Owing(s.calls)
    + SupervisorRank(s.v, s.finished == []) + 15 * |s.finished|
  }

  lemma {:induction false} RanksSame(ws: seq<Worker>, e: bool, e': bool)
    requires e == e' || forall u :: 0 <= u < |ws| ==> !ws[u].pc.WChecked?
    ensures Ranks(ws, e) == Ranks(ws, e')
    decreases |ws|
  {
    if ws != [] { RanksSame(ws[..|ws| - 1], e, e'); }
  }

  lemma {:induction false} RanksMove(ws: seq<Worker>, t: nat, w: Worker, e: bool, e': bool)
    requires t < |ws|
    requires e == e' || forall u :: 0 <= u < |ws| && u != t ==> !ws[u].pc.WChecked?
    ensures Ranks(ws[t := w], e') == Ranks(ws, e) - WorkRank(ws[t].pc, e) + WorkRank(w.pc, e')
    decreases |ws|
  {
    var n := |ws| - 1;
    if t < n {
      RanksMove(ws[..n], t, w, e, e');
      assert ws[t := w][..n] == ws[..n][t := w];
    } else {
      RanksSame(ws[..n], e, e');
      assert ws[t := w][..n] == ws[..n];
    }
  }

  lemma RanksSnoc(ws: seq<Worker>, w: Worker, e: bool)
    ensures Ranks(ws + [w], e) == Ranks(ws, e) + WorkRank(w.pc, e)
  {
    assert (ws + [w])[..|ws|] == ws;
  }

  lemma {:induction false} OwingPaid(calls: seq<Call>, c: nat, call: Call)
    requires c < |calls|
    ensures Owing(calls[c := call]) == Owing(calls) - CallRank(calls[c]) + CallRank(call)
    decreases |calls|
  {
    var n := |calls| - 1;
    if c < n {
      OwingPaid(calls[..n], c, call);
      assert calls[c := call][..n] == calls[..n][c := call];
    } else {
      assert calls[c := call][..n] == calls[..n];
    }
  }

  /** The part of the backlog that one worker's step can change. */
  function Share(s: State, t: nat): int
    requires t < |s.workers|
  {
    WorkRank(s.workers[t].pc, s.tasks == []) + 5 * |s.tasks|
    + SupervisorRank(s.v, s.finished == []) + 15 * |s.finished|
  }

  lemma WorkLowersShare(s: State, t: nat)
    requires t < |s.workers| && s.running
    ensures var s' := WorkStep(s, t);
      && |s'.workers| == |s.workers|
      && (s' == s || Share(s', t) < Share(s, t))
      && (s'.tasks == s.tasks || s.workers[t].pc.WChecked?)
  {
    match s.workers[t].pc
    case WTop =>
    case WWantLock =>
    case WLoop =>
    case WAboutToWait =>
    case WWake =>
    case WChecked =>
    case WHas(_) =>
    case WExiting =>
    case WPushed =>
    case _ =>
  }

  lemma WorkLowersBacklog(s: State, t: nat)
    requires LockInv(s) && s.running
    ensures var s' := WorkStep(s, t); s' == s || Backlog(s') < Backlog(s)
  {
    if t < |s.workers| {
      var s' := WorkStep(s, t);
      WorkMovesOneWorker(s, t);
      WorkTouchesLittle(s, t);
      WorkLowersShare(s, t);
      RanksMove(s.workers, t, s'.workers[t], s.tasks == [], s'.tasks == []);
    }
  }

  lemma SuperviseLowersBacklog(s: State)
    requires s.running && !s.v.VExit?
    ensures var s' := SuperviseStep(s); s' == s || Backlog(s') < Backlog(s)
  {
    match s.v
    case VHave(_) =>
    case VJoin(_) =>
    case VSpawn(id) => RanksSnoc(s.workers, Worker(id, s.period, WTop), s.tasks == []);
    case VChecked =>
    case _ =>
  }

  lemma NotifyLowersBacklog(s: State, c: nat, t: nat)
    ensures var s' := NotifyStep(s, c, t); s' == s || Backlog(s') < Backlog(s)
  {
    if c < |s.calls| && s.calls[c].OwesNotify? {
      OwingPaid(s.calls, c, Done(true));
      if IsWaiting(s, t) {
        RanksMove(s.workers, t, s.workers[t].(pc := WWake), s.tasks == [], s.tasks == []);
      }
    }
  }

  lemma {:induction false} RanksFilled(ws: seq<Worker>)
    ensures Ranks(ws, false) <= Ranks(ws, true)
    decreases |ws|
  {
    if ws != [] { RanksFilled(ws[..|ws| - 1]); }
  }

  lemma EnqueueLowersBacklog(s: State, c: nat)
    ensures var s' := EnqueueStep(s, c); s' == s || Backlog(s') < Backlog(s)
  {
    if c < |s.calls| {
      OwingPaid(s.calls, c, Done(false));
      OwingPaid(s.calls, c, OwesNotify);
      RanksFilled(s.workers);
    }
  }

  /** In a running pool every effective move lowers the backlog: without new work, crashes or
      spurious wakeups there are at most `Backlog` of them. */
  lemma ServiceLowersBacklog(s: State, a: Action)
    requires SafeInv(s) && Up(s) && IsMove(a)
    ensures var s' := Step(s, a); s' == s || Backlog(s') < Backlog(s)
  {
    match a
    case Work(t) => WorkLowersBacklog(s, t);
    case Supervise => SuperviseLowersBacklog(s);
    case Notify(c, t) => NotifyLowersBacklog(s, c, t);
    case Enqueue(c) => EnqueueLowersBacklog(s, c);
    case Control =>
  }

  lemma SomeService(s: State) returns (a: Action)
    requires !Still(s)
    ensures IsMove(a) && Step(s, a) != s
  {
    if SuperviseStep(s) != s {
      a := Supervise;
    } else if t: nat :| WorkStep(s, t) != s {
      a := Work(t);
    } else if c: nat :| Owes(s, c) {
      a := ServicePaid(s, c);
    } else {
      var c: nat :| EnqueueStep(s, c) != s;
      a := Enqueue(c);
    }
  }

  lemma ServicePaid(s: State, c: nat) returns (a: Action)
    requires Owes(s, c)
    ensures IsMove(a) && Step(s, a) != s
  {
    if t: nat :| IsWaiting(s, t) {
      a := Notify(c, t);
    } else {
      a := Notify(c, 0);
    }
    assert Step(s, a).calls[c] == Done(true);
  }

  // ---- What rest means ----------------------------------------------------------------------

  lemma StillWorker(s: State, t: nat)
    requires t < |s.workers| && s.running
    ensures WorkStep(s, t) == s ==>
              match s.workers[t].pc
              case WDead => true
              case WWaiting => true
              case WWantLock => s.lock.Some?
              case WWake => s.lock.Some?
              case WExiting => SupervisorHolds(s.v)
              case _ => false
  {
    var s' := WorkStep(s, t);
    match s.workers[t].pc
    case WTop => assert s'.workers[t].pc == WWantLock;
    case WLoop => assert s'.workers[t].pc != WLoop;
    case WAboutToWait => assert s'.workers[t].pc == WWaiting;
    case WChecked => assert s'.workers[t].pc != WChecked;
    case WHas(_) => assert s'.workers[t].pc == WTop;
    case WPushed => assert s'.workers[t].pc == WDead;
    case WWantLock => assert s.lock.None? ==> s'.workers[t].pc == WLoop;
    case WWake => assert s.lock.None? ==> s'.workers[t].pc == WLoop;
    case WExiting => assert !SupervisorHolds(s.v) ==> s'.workers[t].pc == WPushed;
    case _ =>
  }

  lemma StillSupervisor(s: State)
    requires PoolInv(s) && Up(s) && SuperviseStep(s) == s
    ensures (s.v.VWaiting? && s.finished == []) || s.v.VJoin?
  {
  }

  /** Slot `id`'s thread waits for a task while the supervisor waits for that thread to end. */
  predicate Jammed(s: State, id: nat, u: nat)
  {
    s.v == VJoin(id) && Names(s, id, u) && IsWaiting(s, u)
  }

  lemma WantingMoves(s: State, c: nat)
    requires s.lock.None?
    ensures Wants(s, c) ==> EnqueueStep(s, c) != s
  {
    if Wants(s, c) { assert !EnqueueStep(s, c).calls[c].WantsLock?; }
  }

  /** At rest every worker waits or has ended, nobody holds or wants the lock, and the supervisor waits
      for a report or is jammed. */
  lemma StillMeans(s: State)
    requires PoolInv(s) && Up(s) && Still(s)
    ensures s.lock == None && NoneWants(s)
    ensures forall t :: 0 <= t < |s.workers| ==> s.workers[t].pc.WDead? || s.workers[t].pc.WWaiting?
    ensures (s.v.VWaiting? && s.finished == []) || exists u: nat :: s.v.VJoin? && Jammed(s, s.v.id, u)
  {
    StillSupervisor(s);
    if s.lock.Some? { StillWorker(s, s.lock.value); }
    forall t | 0 <= t < |s.workers| ensures s.workers[t].pc.WDead? || s.workers[t].pc.WWaiting? {
      StillWorker(s, t);
    }
    forall c: nat ensures !Wants(s, c) {
      assert EnqueueStep(s, c) == s;
      WantingMoves(s, c);
    }
    if s.v.VJoin? {
      var id := s.v.id;
      StillJoin(s, id);
      var u := s.handles[id].value;
      assert Names(s, id, u);
      assert Jammed(s, id, u);
    }
  }

  lemma StillJoin(s: State, id: nat)
    requires HandleInv(s) && s.v == VJoin(id) && SuperviseStep(s) == s
    ensures id < |s.handles| && s.handles[id].Some? && s.handles[id].value < |s.workers|
    ensures !s.workers[s.handles[id].value].pc.WDead?
  {
    if s.handles[id].Some? { assert Names(s, id, s.handles[id].value); }
  }

  // ---- Reports of slots that have a live worker ---------------------------------------------

  function Reports(s: State, i: nat): nat
  {
    multiset(s.finished)[i] + if InHand(s.v, i) then 1 else 0
  }

  /** How many more reports there are for slot `i` than ends of its threads: 0 in good order. */
  function Excess(s: State, i: nat): int { Reports(s, i) - if Live(s, i) then 0 else 1 }

  /** A worker of an earlier period is about to report slot `i`. */
  predicate StrayReport(s: State, i: nat, t: nat)
  {
    && t < |s.workers| && s.workers[t].period < s.period
    && s.workers[t].pc.WExiting? && s.workers[t].slot == i
  }

  /** Some report of slot `i`, queued, in hand or about to come, is not owed to its present thread. */
  ghost predicate Stale(s: State, i: nat)
  {
    i < |s.handles| && (Excess(s, i) >= 1 || exists t: nat :: StrayReport(s, i, t))
  }

  lemma ExcessNotNegative(s: State, i: nat)
    requires SlotInv(s) && s.running && i < |s.handles|
    ensures Excess(s, i) >= 0
  {
    assert Accounted(s, i);
  }

  lemma ReportsSnoc(q: seq<nat>, x: nat, i: nat)
    ensures multiset(q + [x])[i] == multiset(q)[i] + if x == i then 1 else 0
  {
  }

  lemma ReportsTaken(q: seq<nat>, i: nat)
    requires q != []
    ensures multiset(q)[i] == multiset(q[1..])[i] + if q[0] == i then 1 else 0
  {
    assert q == [q[0]] + q[1..];
  }

  /** A worker that ends reports once, and its slot stops being live if it was the slot's thread. */
  lemma WorkExcess(s: State, t: nat, i: nat)
    requires SafeInv(s) && t < |s.workers| && i < |s.handles|
    ensures var s' := WorkStep(s, t);
      Excess(s', i) == Excess(s, i) + if StrayReport(s, i, t) && !SupervisorHolds(s.v) then 1 else 0
  {
    var s' := WorkStep(s, t);
    WorkMovesOneWorker(s, t);
    WorkTouchesLittle(s, t);
    match s.workers[t].pc
    case WExiting =>
      if !SupervisorHolds(s.v) {
        ReportsSnoc(s.finished, s.workers[t].slot, i);
        ReportLives(s, t, i);
      }
    case _ => WorkElsewhere(s, t, i);
  }

  lemma WorkElsewhere(s: State, t: nat, i: nat)
    requires t < |s.workers| && !s.workers[t].pc.WExiting?
    ensures var s' := WorkStep(s, t);
      s'.finished == s.finished && s'.v == s.v && |s'.workers| == |s.workers| && s'.handles == s.handles
      && (Gone(s'.workers[t].pc) <==> Gone(s.workers[t].pc))
  {
    match s.workers[t].pc
    case WTop =>
    case WLoop =>
    case WChecked =>
    case _ =>
  }

  lemma ReportLives(s: State, t: nat, i: nat)
    requires HandleInv(s) && t < |s.workers| && i < |s.handles|
    requires s.workers[t].pc.WExiting? && !SupervisorHolds(s.v)
    ensures Live(WorkStep(s, t), i) <==> Live(s, i) && !(s.workers[t].period == s.period && s.workers[t].slot == i)
    ensures s.workers[t].period == s.period && s.workers[t].slot == i ==> Live(s, i)
    ensures s.workers[t].period <= s.period
  {
    if s.workers[t].period == s.period { assert Names(s, s.workers[t].slot, t); }
    if s.handles[i].Some? { assert Names(s, i, s.handles[i].value); }
  }

  lemma SuperviseExcess(s: State, i: nat)
    requires SafeInv(s) && s.running && i < |s.handles|
    ensures i < |SuperviseStep(s).handles| && Excess(SuperviseStep(s), i) == Excess(s, i)
  {
    match s.v
    case VChecked => if s.finished != [] { ReportsTaken(s.finished, i); }
    case VHave(_) =>
    case VJoin(_) =>
    case VJoined(_) =>
    case VSpawn(_) => SpawnExcess(s, i);
    case _ =>
  }

  lemma SpawnExcess(s: State, i: nat)
    requires HandleInv(s) && i < |s.handles| && s.v.VSpawn?
    ensures i < |SuperviseStep(s).handles| && Excess(SuperviseStep(s), i) == Excess(s, i)
  {
    if i != s.v.id && s.handles[i].Some? {
      assert Names(s, i, s.handles[i].value);
    }
    assert Live(SuperviseStep(s), i) <==> Live(s, i) || i == s.v.id;
  }

  lemma OtherExcess(s: State, a: Action, i: nat)
    requires !a.Work? && !a.Supervise? && !Ends(a) && Up(s)
    ensures Excess(Step(s, a), i) == Excess(s, i) && Step(s, a).handles == s.handles
  {
    match a
    case Crash(_) =>
    case SpuriousWake(_) =>
    case Notify(_, _) =>
    case Enqueue(_) =>
    case _ =>
  }

  // ---- What service keeps -------------------------------------------------------------------

  /** Tasks are queued and no worker is in its loop awake, no notification is owed, no slot vacant. */
  ghost predicate Unserved(s: State) { s.running && s.tasks != [] && !Served(s) }

  /** Slot `j` has a thread in its loop. */
  predicate Manned(s: State, j: nat) { Live(s, j) && !s.workers[s.handles[j].value].pc.WExiting? }

  /** The first position of `x`, the length if there is none. */
  function First(q: seq<nat>, x: nat): (p: nat)
    ensures p <= |q|
  {
    if q == [] || q[0] == x then 0 else 1 + First(q[1..], x)
  }

  lemma {:induction false} FirstSnoc(q: seq<nat>, x: nat, y: nat)
    requires x in q
    ensures First(q + [y], x) == First(q, x)
  {
    if q[0] != x {
      assert (q + [y])[1..] == q[1..] + [y];
      FirstSnoc(q[1..], x, y);
    }
  }

  /** How many reports the supervisor takes up before that of slot `j`, whose thread has ended. */
  function Behind(s: State, j: nat): nat { if InHand(s.v, j) then 0 else 1 + First(s.finished, j) }

  ghost predicate SlotKept(s: State, s': State, j: nat)
  {
    && (Manned(s, j) ==> Manned(s', j))
    && (!Live(s, j) ==> Manned(s', j) || (!Live(s', j) && Behind(s', j) <= Behind(s, j)))
    && (Stale(s, j) ==> Stale(s', j))
  }

  /** Nobody serves the queue, and a new task would be refused. */
  ghost predicate Barred(s: State) { Unserved(s) && s.maxQueue == 1 }

  ghost predicate Kept(s: State, s': State)
  {
    && Up(s') && |s'.handles| == |s.handles| && s'.period == s.period
    && (NoStray(s') ==> NoStray(s))
    && (Barred(s) ==> Barred(s'))
    && forall j: nat :: j < |s.handles| ==> SlotKept(s, s', j)
  }

  lemma KeptTrans(s: State, t: State, u: State)
    requires Kept(s, t) && Kept(t, u)
    ensures Kept(s, u)
  {
    forall j: nat | j < |s.handles| ensures SlotKept(s, u, j) {
      assert SlotKept(s, t, j) && SlotKept(t, u, j);
    }
  }

  lemma WorkKeepsSlot(s: State, t: nat, j: nat)
    requires PoolInv(s) && s.running && t < |s.workers| && j < |s.handles|
    ensures SlotKept(s, WorkStep(s, t), j)
  {
    var s' := WorkStep(s, t);
    WorkMovesOneWorker(s, t);
    WorkTouchesLittle(s, t);
    WorkExcess(s, t, j);
    ExcessNotNegative(s, j);
    WorkKeepsManned(s, t);
    if !Live(s, j) { assert Accounted(s, j); WorkKeepsBehind(s, t, j); }
    if u: nat :| StrayReport(s, j, u) {
      WorkKeepsStrayReport(s, t, j, u);
    }
  }

  lemma WorkKeepsManned(s: State, t: nat)
    requires t < |s.workers| && s.running
    ensures var s' := WorkStep(s, t);
      && |s'.workers| == |s.workers|
      && (!s.workers[t].pc.WExiting? && !Gone(s.workers[t].pc) ==>
            !s'.workers[t].pc.WExiting? && !Gone(s'.workers[t].pc))
      && (Gone(s.workers[t].pc) ==> Gone(s'.workers[t].pc))
  {
    match s.workers[t].pc
    case WTop =>
    case WLoop =>
    case WChecked =>
    case _ =>
  }

  lemma WorkKeepsBehind(s: State, t: nat, j: nat)
    requires t < |s.workers| && (j in s.finished || InHand(s.v, j))
    ensures Behind(WorkStep(s, t), j) == Behind(s, j)
  {
    WorkTouchesLittle(s, t);
    match s.workers[t].pc
    case WExiting =>
      if !SupervisorHolds(s.v) && !InHand(s.v, j) { FirstSnoc(s.finished, j, s.workers[t].slot); }
    case _ => WorkElsewhere(s, t, j);
  }

  lemma WorkKeepsStrayReport(s: State, t: nat, j: nat, u: nat)
    requires PoolInv(s) && s.running && t < |s.workers| && j < |s.handles| && StrayReport(s, j, u)
    ensures Stale(WorkStep(s, t), j)
  {
    var s' := WorkStep(s, t);
    WorkMovesOneWorker(s, t);
    WorkTouchesLittle(s, t);
    WorkExcess(s, t, j);
    ExcessNotNegative(s, j);
    if u == t && !SupervisorHolds(s.v) {
      assert Excess(s', j) >= 1;
    } else {
      assert StrayReport(s', j, u);
    }
  }

  lemma SuperviseKeepsSlotFacts(s: State, j: nat)
    requires PoolInv(s) && s.running && j < |s.handles|
    ensures SlotKept(s, SuperviseStep(s), j)
  {
    var s' := SuperviseStep(s);
    SuperviseExcess(s, j);
    SuperviseTouchesLittle(s);
    SuperviseKeepsLiveness(s, j);
    if u: nat :| StrayReport(s, j, u) {
      SuperviseKeepsStrayReport(s, j, u);
    }
  }

  lemma SuperviseKeepsStrayReport(s: State, j: nat, u: nat)
    requires StrayReport(s, j, u)
    ensures StrayReport(SuperviseStep(s), j, u)
  {
    match s.v
    case VSpawn(_) =>
    case VHave(_) =>
    case VJoin(_) =>
    case VChecked =>
    case _ =>
  }

  lemma SuperviseKeepsLiveness(s: State, j: nat)
    requires PoolInv(s) && s.running && j < |s.handles|
    ensures var s' := SuperviseStep(s);
      && (Manned(s, j) ==> Manned(s', j))
      && (!Live(s, j) ==> Manned(s', j) || (!Live(s', j) && Behind(s', j) <= Behind(s, j)))
  {
    assert Accounted(s, j);
    match s.v
    case VChecked =>
    case VHave(_) =>
    case VJoin(_) =>
    case VJoined(_) =>
    case VSpawn(_) =>
    case _ =>
  }

  lemma NotifyKeepsSlot(s: State, c: nat, t: nat, j: nat)
    requires j < |s.handles|
    ensures SlotKept(s, NotifyStep(s, c, t), j)
  {
    var s' := NotifyStep(s, c, t);
    NotifyTouchesLittle(s, c, t);
    if u: nat :| StrayReport(s, j, u) { assert StrayReport(s', j, u); }
  }

  lemma EnqueueKeepsSlot(s: State, c: nat, j: nat)
    requires j < |s.handles|
    ensures SlotKept(s, EnqueueStep(s, c), j)
  {
    if u: nat :| StrayReport(s, j, u) { assert StrayReport(EnqueueStep(s, c), j, u); }
  }

  lemma NotifyTouchesLittle(s: State, c: nat, t: nat)
    ensures var s' := NotifyStep(s, c, t);
      && s'.running == s.running && s'.k == s.k && s'.v == s.v && s'.period == s.period
      && s'.handles == s.handles && s'.finished == s.finished && s'.tasks == s.tasks
      && |s'.workers| == |s.workers|
      && forall u :: 0 <= u < |s.workers| ==>
           && s'.workers[u].slot == s.workers[u].slot && s'.workers[u].period == s.workers[u].period
           && (s'.workers[u].pc == s.workers[u].pc || (s.workers[u].pc.WWaiting? && s'.workers[u].pc.WWake?))
  {
  }

  lemma ServiceKeepsSlots(s: State, a: Action)
    requires PoolInv(s) && Up(s) && IsMove(a)
    ensures Up(Step(s, a)) && |Step(s, a).handles| == |s.handles| && Step(s, a).period == s.period
    ensures forall j: nat :: j < |s.handles| ==> SlotKept(s, Step(s, a), j)
  {
    var s' := Step(s, a);
    match a
    case Work(t) =>
      WorkTouchesLittle(s, t);
      if t < |s.workers| {
        forall j: nat | j < |s.handles| ensures SlotKept(s, s', j) { WorkKeepsSlot(s, t, j); }
      }
    case Supervise =>
      SuperviseTouchesLittle(s);
      forall j: nat | j < |s.handles| ensures SlotKept(s, s', j) { SuperviseKeepsSlotFacts(s, j); }
    case Notify(c, t) =>
      NotifyTouchesLittle(s, c, t);
      forall j: nat | j < |s.handles| ensures SlotKept(s, s', j) { NotifyKeepsSlot(s, c, t, j); }
    case Enqueue(c) =>
      forall j: nat | j < |s.handles| ensures SlotKept(s, s', j) { EnqueueKeepsSlot(s, c, j); }
    case Control =>
      forall j: nat | j < |s.handles| ensures SlotKept(s, s', j) {}
  }

  /** A worker in its loop stays there while the pool runs. */
  lemma ServiceKeepsStrays(s: State, a: Action, t: nat)
    requires Up(s) && IsMove(a) && Stray(s, t)
    ensures Stray(Step(s, a), t)
  {
    match a
    case Work(u) =>
      WorkMovesOneWorker(s, u);
      WorkTouchesLittle(s, u);
      if u < |s.workers| { WorkKeepsManned(s, u); }
    case Supervise => SuperviseKeepsStray(s, t);
    case Notify(c, u) => NotifyTouchesLittle(s, c, u);
    case Enqueue(_) =>
    case Control =>
  }

  lemma SuperviseKeepsStray(s: State, t: nat)
    requires Stray(s, t)
    ensures Stray(SuperviseStep(s), t)
  {
    match s.v
    case VSpawn(_) =>
    case VHave(_) =>
    case VJoin(_) =>
    case VChecked =>
    case _ =>
  }

  /** Where nobody is awake, owed or missing and the queue is full, service wakes, owes and replaces
      nobody. */
  lemma ServiceKeepsUnserved(s: State, a: Action)
    requires PoolInv(s) && Up(s) && IsMove(a) && Barred(s)
    ensures Barred(Step(s, a))
  {
    match a
    case Work(t) => WorkKeepsUnserved(s, t);
    case Supervise => SuperviseKeepsUnserved(s);
    case Notify(c, t) =>
      assert !Owes(s, c);
      assert Step(s, a) == s;
    case Enqueue(c) => EnqueueKeepsUnserved(s, c);
    case Control =>
  }

  lemma EnqueueKeepsUnserved(s: State, c: nat)
    requires Barred(s)
    ensures Barred(EnqueueStep(s, c))
  {
    var s' := EnqueueStep(s, c);
    forall u: nat ensures !Awake(s', u) { assert !Awake(s, u); }
    forall d: nat ensures !Owes(s', d) { assert !Owes(s, d); }
    forall i: nat ensures !Vacant(s', i) { assert !Vacant(s, i); }
  }

  lemma WorkKeepsUnserved(s: State, t: nat)
    requires PoolInv(s) && Up(s) && Barred(s)
    ensures Barred(WorkStep(s, t))
  {
    var s' := WorkStep(s, t);
    WorkMovesOneWorker(s, t);
    WorkTouchesLittle(s, t);
    if t < |s.workers| {
      assert !Awake(s, t);
      SleeperStays(s, t);
      forall u: nat ensures !Awake(s', u) { assert !Awake(s, u); }
      forall c: nat ensures !Owes(s', c) { assert !Owes(s, c); }
      forall i: nat ensures !Vacant(s', i) {
        assert !Vacant(s, i);
        if i < |s.handles| && s.handles[i].Some? { assert Names(s, i, s.handles[i].value); }
      }
    }
  }

  lemma SleeperStays(s: State, t: nat)
    requires t < |s.workers| && !Awake(s, t)
    ensures var s' := WorkStep(s, t);
      && |s'.workers| == |s.workers| && s'.tasks == s.tasks && !Awake(s', t)
      && (s.workers[t].pc.WWaiting? ==> s' == s)
  {
    match s.workers[t].pc
    case WExiting =>
    case WPushed =>
    case _ =>
  }

  lemma SuperviseKeepsUnserved(s: State)
    requires PoolInv(s) && Up(s) && Barred(s)
    ensures Barred(SuperviseStep(s))
  {
    var s' := SuperviseStep(s);
    match s.v
    case VSpawn(id) => assert Vacant(s, id);
    case VJoin(id) =>
      assert !Vacant(s, id);
      SameThreads(s, s');
    case VHave(_) => SameThreads(s, s');
    case VChecked => SameThreads(s, s');
    case _ => SameThreads(s, s');
  }

  lemma SameThreads(s: State, s': State)
    requires Barred(s) && s'.running && s'.workers == s.workers && s'.handles == s.handles
    requires s'.calls == s.calls && s'.k == s.k && s'.tasks == s.tasks && s'.maxQueue == s.maxQueue
    ensures Barred(s')
  {
    forall u: nat ensures !Awake(s', u) { assert !Awake(s, u); }
    forall c: nat ensures !Owes(s', c) { assert !Owes(s, c); }
    forall i: nat ensures !Vacant(s', i) { assert !Vacant(s, i); }
  }

  lemma ServiceKeeps(s: State, a: Action)
    requires PoolInv(s) && Up(s) && IsMove(a)
    ensures Kept(s, Step(s, a))
  {
    ServiceKeepsSlots(s, a);
    if t: nat :| Stray(s, t) { ServiceKeepsStrays(s, a, t); }
    if Barred(s) { ServiceKeepsUnserved(s, a); }
  }

  lemma KeptNothing(s: State)
    requires Up(s)
    ensures Kept(s, s)
  {
  }

  /** Left alone, the pool comes to rest. */
  lemma {:induction false} Settle(s: State) returns (r: State)
    requires PoolInv(s) && Up(s)
    ensures Leads(s, r) && PoolInv(r) && Still(r) && Kept(s, r)
    decreases Backlog(s)
  {
    if Still(s) {
      LeadsNowhere(s);
      KeptNothing(s);
      r := s;
    } else {
      var a := SomeService(s);
      ServiceLowersBacklog(s, a);
      ServiceKeeps(s, a);
      StepKeepsPool(s, a);
      r := Settle(Step(s, a));
      LeadsNowhere(s);
      LeadsStep(s, s, a);
      LeadsTrans(s, Step(s, a), r);
      KeptTrans(s, Step(s, a), r);
    }
  }
}

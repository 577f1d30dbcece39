/** What becomes of every task: the one dequeued is the one run, once, by the thread that took it. */
module ThreadPoolTasks {
  import opened ThreadPool
  import opened ThreadPoolSafety

  // ---- Thread by thread ---------------------------------------------------------------------

  /** The tasks logged under thread `t`, in order. */
  function By(log: seq<(nat, Task)>, t: nat): seq<Task>
  {
    if log == [] then []
    else By(log[..|log| - 1], t) + if log[|log| - 1].0 == t then [log[|log| - 1].1] else []
  }

  lemma BySnoc(log: seq<(nat, Task)>, e: (nat, Task), t: nat)
    ensures By(log + [e], t) == By(log, t) + if e.0 == t then [e.1] else []
  {
    assert (log + [e])[..|log|] == log;
  }

  /** The task thread `t` is running, if any. */
  function Holding(s: State, t: nat): seq<Task>
  {
    if t < |s.workers| && s.workers[t].pc.WHas? then [s.workers[t].pc.task] else []
  }

  /** Thread `t` has left its loop, for good. */
  predicate HasLeft(s: State, t: nat)
  {
    t < |s.workers| && (s.workers[t].pc.WExiting? || Gone(s.workers[t].pc))
  }

  /** What thread `t` took from the queue it has run, in that order, except for the last task, which it may
      be running still or have crashed with; and after that it takes nothing more. */
  ghost predicate InOrder(s: State, t: nat)
  {
    Accounts(By(s.dequeued, t), By(s.ran, t), By(s.dropped, t), Holding(s, t), HasLeft(s, t))
  }

  predicate Accounts(took: seq<Task>, ran: seq<Task>, dropped: seq<Task>, holding: seq<Task>, left: bool)
  {
    took == ran + dropped + holding && |dropped| <= if left then 1 else 0
  }

  lemma TakeAccounts(took: seq<Task>, ran: seq<Task>, dropped: seq<Task>, x: Task)
    requires Accounts(took, ran, dropped, [], false)
    ensures Accounts(took + [x], ran, dropped, [x], false)
  {
  }

  lemma RunAccounts(took: seq<Task>, ran: seq<Task>, dropped: seq<Task>, x: Task)
    requires Accounts(took, ran, dropped, [x], false)
    ensures Accounts(took, ran + [x], dropped, [], false)
  {
    assert dropped == [];
    assert ran + [] + [x] == ran + [x] + [] + [];
  }

  lemma DropAccounts(took: seq<Task>, ran: seq<Task>, dropped: seq<Task>, x: Task)
    requires Accounts(took, ran, dropped, [x], false)
    ensures Accounts(took, ran, dropped + [x], [], true)
  {
    assert dropped == [];
    assert ran + [] + [x] == ran + [x] + [];
  }

  lemma WorkKeepsOrder(s: State, t: nat, u: nat)
    requires InOrder(s, u)
    ensures InOrder(WorkStep(s, t), u)
  {
    if t < |s.workers| {
      if s.workers[t].pc.WChecked? && s.running && s.tasks != [] {
        TakeKeepsOrder(s, t, u);
      } else if s.workers[t].pc.WHas? {
        RunKeepsOrder(s, t, u);
      } else {
        WorkMovesOneWorker(s, t);
        WorkLogsNothing(s, t);
        SameLogs(s, WorkStep(s, t), u);
      }
    }
  }

  /** `s'` is `s` with thread `t` alone moved. */
  predicate OnlyMoves(s: State, s': State, t: nat, pc: WorkerPc)
  {
    t < |s.workers| && s'.workers == s.workers[t := s.workers[t].(pc := pc)]
  }

  lemma TakeKeepsOrder(s: State, t: nat, u: nat)
    requires InOrder(s, u) && t < |s.workers| && s.workers[t].pc.WChecked? && s.running && s.tasks != []
    ensures InOrder(WorkStep(s, t), u)
  {
    TakenInOrder(s, WorkStep(s, t), t, u, s.tasks[0]);
  }

  lemma TakenInOrder(s: State, s': State, t: nat, u: nat, x: Task)
    requires InOrder(s, u) && OnlyMoves(s, s', t, WHas(x)) && s.workers[t].pc.WChecked?
    requires s'.dequeued == s.dequeued + [(t, x)] && s'.ran == s.ran && s'.dropped == s.dropped
    ensures InOrder(s', u)
  {
    BySnoc(s.dequeued, (t, x), u);
    if u == t { TakeAccounts(By(s.dequeued, u), By(s.ran, u), By(s.dropped, u), x); }
  }

  lemma RunKeepsOrder(s: State, t: nat, u: nat)
    requires InOrder(s, u) && t < |s.workers| && s.workers[t].pc.WHas?
    ensures InOrder(WorkStep(s, t), u)
  {
    RunInOrder(s, WorkStep(s, t), t, u, s.workers[t].pc.task);
  }

  lemma RunInOrder(s: State, s': State, t: nat, u: nat, x: Task)
    requires InOrder(s, u) && OnlyMoves(s, s', t, WTop) && s.workers[t].pc == WHas(x)
    requires s'.ran == s.ran + [(t, x)] && s'.dequeued == s.dequeued && s'.dropped == s.dropped
    ensures InOrder(s', u)
  {
    BySnoc(s.ran, (t, x), u);
    if u == t { RunAccounts(By(s.dequeued, u), By(s.ran, u), By(s.dropped, u), x); }
  }

  lemma WorkLogsNothing(s: State, t: nat)
    requires t < |s.workers| && !s.workers[t].pc.WHas?
    requires !(s.workers[t].pc.WChecked? && s.running && s.tasks != [])
    ensures var s' := WorkStep(s, t);
      && s'.dequeued == s.dequeued && s'.ran == s.ran && s'.dropped == s.dropped
      && |s'.workers| == |s.workers| && !s'.workers[t].pc.WHas? && (HasLeft(s, t) ==> HasLeft(s', t))
  {
    match s.workers[t].pc
    case WTop =>
    case WLoop =>
    case WChecked =>
    case WExiting =>
    case _ =>
  }

  lemma SameLogs(s: State, s': State, u: nat)
    requires InOrder(s, u)
    requires s'.dequeued == s.dequeued && s'.ran == s.ran && s'.dropped == s.dropped
    requires Holding(s', u) == Holding(s, u) && (HasLeft(s, u) ==> HasLeft(s', u))
    ensures InOrder(s', u)
  {
  }

  lemma CrashKeepsOrder(s: State, t: nat, u: nat)
    requires InOrder(s, u)
    ensures InOrder(CrashStep(s, t), u)
  {
    if t < |s.workers| && s.workers[t].pc.WHas? {
      DroppedInOrder(s, CrashStep(s, t), t, u, s.workers[t].pc.task);
    } else {
      SameLogs(s, CrashStep(s, t), u);
    }
  }

  lemma DroppedInOrder(s: State, s': State, t: nat, u: nat, x: Task)
    requires InOrder(s, u) && OnlyMoves(s, s', t, WExiting) && s.workers[t].pc == WHas(x)
    requires s'.dropped == s.dropped + [(t, x)] && s'.dequeued == s.dequeued && s'.ran == s.ran
    ensures InOrder(s', u)
  {
    BySnoc(s.dropped, (t, x), u);
    if u == t { DropAccounts(By(s.dequeued, u), By(s.ran, u), By(s.dropped, u), x); }
  }

  /** The other actions run nothing and hold nothing. */
  lemma OthersKeepTasks(s: State, a: Action)
    requires !a.Work? && !a.Crash?
    ensures var s' := Step(s, a);
      && s'.dequeued == s.dequeued && s'.ran == s.ran && s'.dropped == s.dropped
      && |s.workers| <= |s'.workers|
      && (forall t :: 0 <= t < |s.workers| ==>
            s'.workers[t].pc == s.workers[t].pc || (s.workers[t].pc.WWaiting? && s'.workers[t].pc.WWake?))
      && (forall t :: |s.workers| <= t < |s'.workers| ==> s'.workers[t].pc.WTop?)
  {
    match a
    case Supervise =>
      match s.v {
        case VSpawn(_) =>
        case VHave(_) =>
        case VJoin(_) =>
        case VChecked =>
        case _ =>
      }
    case Control =>
    case Notify(_, _) =>
    case _ =>
  }

  lemma StepKeepsOrder(s: State, a: Action, u: nat)
    requires InOrder(s, u)
    ensures InOrder(Step(s, a), u)
  {
    match a
    case Work(t) => WorkKeepsOrder(s, t, u);
    case Crash(t) => CrashKeepsOrder(s, t, u);
    case _ =>
      OthersKeepTasks(s, a);
      SameLogs(s, Step(s, a), u);
  }

  /** Over every schedule: every thread runs exactly the tasks it took, in the order it took them, and a
      task it has not finished is the last. */
  lemma {:induction false} RunsWhatItTook(schedule: seq<Action>, t: nat)
    ensures InOrder(Exec(Initial, schedule), t)
    decreases |schedule|
  {
    if schedule != [] {
      var front := schedule[..|schedule| - 1];
      RunsWhatItTook(front, t);
      StepKeepsOrder(Exec(Initial, front), schedule[|schedule| - 1], t);
    }
  }

  // ---- All threads together -----------------------------------------------------------------

  /** How many threads are running task `x`. */
  function Held(ws: seq<Worker>, x: Task): nat
  {
    if ws == [] then 0 else Held(ws[..|ws| - 1], x) + HeldBy(ws[|ws| - 1], x)
  }

  function HeldBy(w: Worker, x: Task): nat { if w.pc == WHas(x) then 1 else 0 }

  lemma {:induction false} HeldUpdate(ws: seq<Worker>, t: nat, w: Worker, x: Task)
    requires t < |ws|
    ensures Held(ws[t := w], x) == Held(ws, x) - HeldBy(ws[t], x) + HeldBy(w, x)
    decreases |ws|
  {
    var n := |ws| - 1;
    if t < n {
      HeldUpdate(ws[..n], t, w, x);
      assert ws[t := w][..n] == ws[..n][t := w];
    } else {
      assert ws[t := w][..n] == ws[..n];
    }
  }

  lemma {:induction false} HeldSame(ws: seq<Worker>, vs: seq<Worker>, x: Task)
    requires |ws| <= |vs|
    requires forall t :: 0 <= t < |ws| ==> HeldBy(vs[t], x) == HeldBy(ws[t], x)
    requires forall t :: |ws| <= t < |vs| ==> !vs[t].pc.WHas?
    ensures Held(vs, x) == Held(ws, x)
    decreases |vs|
  {
    if |vs| > |ws| {
      HeldSame(ws, vs[..|vs| - 1], x);
    } else if ws != [] {
      HeldSame(ws[..|ws| - 1], vs[..|vs| - 1], x);
    }
  }

  /** How often task `x` occurs in a log. */
  function Times(log: seq<(nat, Task)>, x: Task): nat { multiset(TasksOf(log))[x] }

  /** As often as task `x` was dequeued it has been run, or dropped by a crash, or is being run. */
  ghost predicate Settled(s: State, x: Task)
  {
    Times(s.dequeued, x) == Times(s.ran, x) + Times(s.dropped, x) + Held(s.workers, x)
  }

  lemma LogGrows(log: seq<(nat, Task)>, e: (nat, Task), x: Task)
    ensures Times(log + [e], x) == Times(log, x) + if e.1 == x then 1 else 0
  {
    TasksOfSnoc(log, e);
  }

  lemma WorkKeepsSettled(s: State, t: nat, x: Task)
    requires Settled(s, x)
    ensures Settled(WorkStep(s, t), x)
  {
    if t < |s.workers| {
      var s' := WorkStep(s, t);
      WorkMovesOneWorker(s, t);
      HeldUpdate(s.workers, t, s'.workers[t], x);
      if s.workers[t].pc.WChecked? {
        if s.running && s.tasks != [] { LogGrows(s.dequeued, (t, s.tasks[0]), x); }
      } else if s.workers[t].pc.WHas? {
        LogGrows(s.ran, (t, s.workers[t].pc.task), x);
      } else {
        WorkLogsNothing(s, t);
      }
    }
  }

  lemma CrashKeepsSettled(s: State, t: nat, x: Task)
    requires Settled(s, x)
    ensures Settled(CrashStep(s, t), x)
  {
    if t < |s.workers| {
      HeldUpdate(s.workers, t, s.workers[t].(pc := WExiting), x);
      if s.workers[t].pc.WHas? { LogGrows(s.dropped, (t, s.workers[t].pc.task), x); }
    }
  }

  lemma StepKeepsSettled(s: State, a: Action, x: Task)
    requires Settled(s, x)
    ensures Settled(Step(s, a), x)
  {
    match a
    case Work(t) => WorkKeepsSettled(s, t, x);
    case Crash(t) => CrashKeepsSettled(s, t, x);
    case _ =>
      OthersKeepTasks(s, a);
      HeldSame(s.workers, Step(s, a).workers, x);
  }

  ghost predicate AllSettled(s: State) { forall x :: Settled(s, x) }

  lemma StepKeepsAllSettled(s: State, a: Action)
    requires AllSettled(s)
    ensures AllSettled(Step(s, a))
  {
    var s' := Step(s, a);
    forall x ensures Settled(s', x) { StepKeepsSettled(s, a, x); }
  }

  lemma {:induction false} ReachableSettled(schedule: seq<Action>, x: Task)
    ensures Settled(Exec(Initial, schedule), x)
    decreases |schedule|
  {
    if schedule != [] {
      var front := schedule[..|schedule| - 1];
      ReachableSettled(front, x);
      StepKeepsSettled(Exec(Initial, front), schedule[|schedule| - 1], x);
    }
  }

  lemma {:induction false} NothingDropped(s: State, schedule: seq<Action>)
    requires forall i :: 0 <= i < |schedule| ==> !schedule[i].Crash?
    ensures Exec(s, schedule).dropped == s.dropped
    decreases |schedule|
  {
    if schedule != [] {
      var front, a := schedule[..|schedule| - 1], schedule[|schedule| - 1];
      NothingDropped(s, front);
      var f := Exec(s, front);
      if a.Work? { WorkDropsNothing(f, a.thread); } else { OthersKeepTasks(f, a); }
    }
  }

  lemma WorkDropsNothing(s: State, t: nat)
    ensures WorkStep(s, t).dropped == s.dropped
  {
    if t < |s.workers| {
      match s.workers[t].pc
      case WTop =>
      case WLoop =>
      case WChecked =>
      case WExiting =>
      case _ =>
    }
  }

  /** Over every schedule, through any number of starts, stops and crashes: as often as a task was
      accepted it has been run, or a crash took it with its thread, or a thread is running it, or it
      is still queued. Where no worker has crashed nothing is dropped. */
  lemma EachTaskRunsOnce(schedule: seq<Action>, x: Task)
    ensures var s := Exec(Initial, schedule);
      && multiset(s.accepted)[x]
           == Times(s.ran, x) + Times(s.dropped, x) + Held(s.workers, x) + multiset(s.tasks)[x]
      && ((forall i :: 0 <= i < |schedule| ==> !schedule[i].Crash?) ==> s.dropped == [])
  {
    TaskConservation(schedule);
    ReachableSettled(schedule, x);
    if forall i :: 0 <= i < |schedule| ==> !schedule[i].Crash? { NothingDropped(Initial, schedule); }
  }
}

/** Every accepted task is run, in every fair run, exactly where no task can be stranded. */
module ThreadPoolService {
  import opened ThreadPool
  import opened ThreadPoolSafety
  import opened ThreadPoolProgress
  import opened ThreadPoolSettle
  import opened ThreadPoolStranded
  import opened ThreadPoolTasks

  ghost predicate SamePeriod(r: Run) { forall n: nat :: !Ends(r.actions(n)) }

  /** From moment `n` on nothing comes from outside: no new call, limit change, wakeup or crash. */
  ghost predicate QuietFrom(r: Run, n: nat) { forall m: nat :: m >= n ==> IsMove(r.actions(m)) }

  /** A fair run without `start` and `stop` in which outside actions come to an end. */
  ghost predicate Calming(r: Run) { Fair(r) && SamePeriod(r) && exists n: nat :: QuietFrom(r, n) }

  /** The tasks accepted so far are exactly those that workers have taken, in the same order, and each has
      been run to its end as often as it was accepted, but for those a crash took with its thread. */
  ghost predicate AllRun(s: State)
  {
    && s.tasks == [] && s.accepted == TasksOf(s.dequeued)
    && forall x :: multiset(s.accepted)[x] == Times(s.ran, x) + Times(s.dropped, x)
  }

  ghost predicate ServedFrom(r: Run, n: nat) { forall m: nat :: m >= n ==> AllRun(r.states(m)) }

  ghost predicate AlwaysServed(s: State)
  {
    forall r :: IsRun(s, r) && Calming(r) ==> exists n: nat :: ServedFrom(r, n)
  }

  ghost predicate Steady(s: State)
  {
    PoolInv(s) && Up(s) && !MayStrand(s) && Conserved(s) && AllSettled(s)
  }

  lemma SteadyNext(s: State, r: Run, n: nat)
    requires IsRun(s, r) && SamePeriod(r) && Steady(r.states(n))
    ensures Steady(r.states(n + 1))
    ensures IsMove(r.actions(n)) && r.states(n + 1) != r.states(n) ==>
              Backlog(r.states(n + 1)) < Backlog(r.states(n))
  {
    assert Follows(r, n) && !Ends(r.actions(n));
    var t, a := r.states(n), r.actions(n);
    StepKeepsSound(t, a);
    StepKeepsPool(t, a);
    StepConserves(t, a);
    StepKeepsAllSettled(t, a);
    if IsMove(a) { ServiceLowersBacklog(t, a); }
  }

  lemma {:induction false} SteadyUntil(s: State, r: Run, n: nat, m: nat)
    requires IsRun(s, r) && SamePeriod(r) && Steady(r.states(n)) && n <= m
    ensures Steady(r.states(m))
    ensures QuietFrom(r, n) ==> Backlog(r.states(m)) <= Backlog(r.states(n))
    decreases m - n
  {
    if n < m {
      SteadyUntil(s, r, n, m - 1);
      SteadyNext(s, r, m - 1);
    }
  }

  lemma StillIff(s: State)
    requires Up(s)
    ensures Still(s) <==> !CanMove(s)
  {
    if !Still(s) {
      var a := SomeService(s);
    } else {
      forall a | IsMove(a) ensures Step(s, a) == s { StillStays(s, a); }
    }
  }

  lemma StillStays(s: State, a: Action)
    requires Up(s) && Still(s) && IsMove(a)
    ensures Step(s, a) == s
  {
    match a
    case Work(t) => assert WorkStep(s, t) == s;
    case Supervise =>
    case Control =>
    case Enqueue(c) => assert EnqueueStep(s, c) == s;
    case Notify(c, _) => assert !Owes(s, c);
  }

  /** After the last outside action a fair run makes another move unless it has come to rest. */
  lemma NextMoved(s: State, r: Run, n: nat) returns (m: nat)
    requires IsRun(s, r) && Calming(r) && Steady(r.states(n)) && QuietFrom(r, n)
    ensures m >= n && Steady(r.states(m))
    ensures Still(r.states(m)) || (Steady(r.states(m + 1)) && Backlog(r.states(m + 1)) < Backlog(r.states(n)))
  {
    assert TurnFrom(r, n);
    m :| m >= n && Turn(r, m);
    SteadyUntil(s, r, n, m);
    StillIff(r.states(m));
    SteadyNext(s, r, m);
  }

  lemma {:induction false} ComesToRest(s: State, r: Run, n: nat) returns (m: nat)
    requires IsRun(s, r) && Calming(r) && Steady(r.states(n)) && QuietFrom(r, n)
    ensures m >= n && Steady(r.states(m)) && Still(r.states(m))
    decreases Backlog(r.states(n))
  {
    m := NextMoved(s, r, n);
    if !Still(r.states(m)) { m := ComesToRest(s, r, m + 1); }
  }

  lemma {:induction false} Rests(s: State, r: Run, n: nat, m: nat)
    requires IsRun(s, r) && Steady(r.states(n)) && Still(r.states(n)) && QuietFrom(r, n) && n <= m
    ensures r.states(m) == r.states(n)
    decreases m - n
  {
    if n < m {
      Rests(s, r, n, m - 1);
      assert Follows(r, m - 1) && IsMove(r.actions(m - 1));
      StillStays(r.states(n), r.actions(m - 1));
    }
  }

  lemma {:induction false} NobodyHolds(ws: seq<Worker>, x: Task)
    requires forall t :: 0 <= t < |ws| ==> !ws[t].pc.WHas?
    ensures Held(ws, x) == 0
  {
    if ws != [] { NobodyHolds(ws[..|ws| - 1], x); }
  }

  lemma RestingHasRun(s: State)
    requires Steady(s) && Still(s)
    ensures AllRun(s)
  {
    if s.tasks != [] { StrandedMayStrand(s); }
    StillMeans(s);
    assert TasksOf(s.dequeued) + s.tasks == TasksOf(s.dequeued);
    forall x ensures multiset(s.accepted)[x] == Times(s.ran, x) + Times(s.dropped, x) {
      assert Settled(s, x);
      NobodyHolds(s.workers, x);
    }
  }

  lemma SteadyIsServed(s: State, r: Run) returns (n: nat)
    requires IsRun(s, r) && Calming(r) && Steady(s)
    ensures ServedFrom(r, n)
  {
    var q: nat :| QuietFrom(r, q);
    SteadyUntil(s, r, 0, q);
    n := ComesToRest(s, r, q);
    RestingHasRun(r.states(n));
    forall m: nat | m >= n ensures AllRun(r.states(m)) { Rests(s, r, n, m); }
  }

  /** A schedule that strands a task is the beginning of a run that never takes it. */
  lemma StrandingRun(s: State)
    requires CanStrand(s)
    ensures !AlwaysServed(s)
  {
    var t :| Leads(s, t) && Stranded(t);
    var schedule :| WithinPeriod(schedule) && Exec(s, schedule) == t;
    StillIff(t);
    var r := StuckRun(s, schedule);
    assert QuietFrom(r, |schedule|);
    forall n: nat ensures !ServedFrom(r, n) { assert !AllRun(r.states(n + |schedule|)); }
  }

  /** In every reachable state of a running pool whose `start` has returned: in every fair run in which
      `start` and `stop` are not called and outside actions come to an end, every task ever accepted
      is sooner or later run, or lost to a crash, exactly if no task can be stranded. */
  lemma EveryTaskRunIff(prefix: seq<Action>)
    requires Up(Exec(Initial, prefix))
    ensures AlwaysServed(Exec(Initial, prefix)) <==> !MayStrand(Exec(Initial, prefix))
  {
    var s := Exec(Initial, prefix);
    ReachablePool(prefix);
    TaskConservation(prefix);
    forall x ensures Settled(s, x) { ReachableSettled(prefix, x); }
    if MayStrand(s) {
      MayStrandCan(s);
      StrandingRun(s);
    } else {
      forall r | IsRun(s, r) && Calming(r) ensures exists n: nat :: ServedFrom(r, n) {
        var n := SteadyIsServed(s, r);
      }
    }
  }

  /** In the first period every task is sooner or later run or lost to a crash. */
  lemma FirstPeriodServes(prefix: seq<Action>)
    requires Up(Exec(Initial, prefix)) && Exec(Initial, prefix).period == 1
    ensures AlwaysServed(Exec(Initial, prefix))
  {
    EveryTaskRunIff(prefix);
    FirstPeriodIsSound(prefix);
  }
}

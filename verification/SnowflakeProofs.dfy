/** Uniqueness and order of generated ids over whole runs. */
module SnowflakeProofs {
  import opened Bits
  import opened Snowflake

  lemma NextSequenceIs(s: State)
    requires s.sequence <= MAX_SEQUENCE
    ensures NextSequence(s) == if s.sequence == MAX_SEQUENCE then 0 else s.sequence + 1
  {
    var x := s.sequence + 1;
    assert Pow2(12) == 4096 by { ShiftConstants(); }
    assert And(x, MAX_SEQUENCE) == x % 4096 by { AndMask(x, 12); }
    if x == 4096 { DivModUnique(x, 4096, 1, 0); } else { DivModUnique(x, 4096, 0, x); }
  }

  // ---- Any clock: different generators never collide ----------------------------------------

  lemma {:induction false} SequenceBounded(dc: nat, worker: nat, clock: Clock, n: nat)
    ensures After(dc, worker, clock, n).0.sequence <= MAX_SEQUENCE
  {
    if n > 0 {
      SequenceBounded(dc, worker, clock, n - 1);
      NextSequenceIs(After(dc, worker, clock, n - 1).0);
    }
  }

  lemma CallInBounds(dc: nat, worker: nat, clock: Clock, i: nat)
    ensures var o := Call(dc, worker, clock, i); o.Issued? ==> o.sequence <= MAX_SEQUENCE
  {
    SequenceBounded(dc, worker, clock, i);
    NextSequenceIs(After(dc, worker, clock, i).0);
  }

  /** Two generators with different identities never issue the same id, in any two runs over any two
      clocks, forwards or backwards. */
  lemma GeneratorsNeverCollide(dc1: nat, w1: nat, clock1: Clock, i: nat,
                               dc2: nat, w2: nat, clock2: Clock, j: nat)
    requires ValidIds(dc1, w1) && ValidIds(dc2, w2) && (dc1 != dc2 || w1 != w2)
    ensures var a, b := Call(dc1, w1, clock1, i), Call(dc2, w2, clock2, j);
      a.Issued? && b.Issued? ==> IdOf(dc1, w1, a) != IdOf(dc2, w2, b)
  {
    var a, b := Call(dc1, w1, clock1, i), Call(dc2, w2, clock2, j);
    if a.Issued? && b.Issued? {
      CallInBounds(dc1, w1, clock1, i);
      CallInBounds(dc2, w2, clock2, j);
      FieldsRecoverable(a.ts, dc1, w1, a.sequence);
      FieldsRecoverable(b.ts, dc2, w2, b.sequence);
    }
  }

  /** Every call reads the clock at least once and at most six times. */
  lemma {:induction false} ReadsAreBounded(dc: nat, worker: nat, clock: Clock, n: nat)
    ensures n <= After(dc, worker, clock, n).1 <= 6 * n
  {
    if n > 0 { ReadsAreBounded(dc, worker, clock, n - 1); }
  }

  // ---- Any clock: what a call does ----------------------------------------------------------

  /** How many of the next n readings show `last` before one does not. */
  function Standing(last: int, clock: Clock, t: nat, n: nat): (k: nat)
    ensures k <= n
    decreases n
  {
    if n == 0 || clock(t) != last then 0 else 1 + Standing(last, clock, t + 1, n - 1)
  }

  lemma {:induction false} StandingMeans(last: int, clock: Clock, t: nat, n: nat)
    ensures var k := Standing(last, clock, t, n);
      && (forall u :: t <= u < t + k ==> clock(u) == last)
      && (k < n ==> clock(t + k) != last)
    decreases n
  {
    if n > 0 && clock(t) == last { StandingMeans(last, clock, t + 1, n - 1); }
  }

  /** The reading that ends the wait, and the number of the one after it. */
  function Found(last: int, clock: Clock, t: nat, k: nat, n: nat): (int, nat)
    requires k <= n
  {
    if k < n then (clock(t + k), t + k + 1) else (last, t + n)
  }

  lemma StandingStep(last: int, clock: Clock, t: nat, n: nat)
    ensures Standing(last, clock, t, n)
         == if n == 0 || clock(t) != last then 0 else 1 + Standing(last, clock, t + 1, n - 1)
  {
  }

  lemma {:induction false} WaitFinds(last: int, clock: Clock, t: nat, count: nat, n: nat, k: nat)
    requires count <= MAX_WAIT && n == MAX_WAIT - count && k == Standing(last, clock, t, n)
    ensures Wait(last, clock, t, last, count) == Found(last, clock, t, k, n)
    decreases n
  {
    StandingStep(last, clock, t, n);
    if count == MAX_WAIT {
      WaitDone(last, clock, t, last, count);
    } else {
      WaitStep(last, clock, t, last, count);
      if clock(t) == last {
        WaitFinds(last, clock, t + 1, count + 1, n - 1, k - 1);
      } else if clock(t) > last {
        WaitDone(last, clock, t + 1, clock(t), count + 1);
      }
    }
  }

  /** A call on any clock, forwards or backwards. In another millisecond than the last, earlier ones
      included, it issues number 0 of that; in the same one the next number; and after number 4095 it
      reads on, up to five times, and issues number 0 of the first other time if that is later. If it
      is earlier, or all five show the same, the call fails and leaves number 0 behind. */
  lemma OnAnyClock(s: State, clock: Clock, t: nat)
    requires s.sequence <= MAX_SEQUENCE
    ensures clock(t) != s.last ==>
              Next(s, clock, t) == (s.(sequence := 0, last := clock(t)), Issued(clock(t), 0), t + 1)
    ensures clock(t) == s.last && s.sequence < MAX_SEQUENCE ==>
              Next(s, clock, t) == (s.(sequence := s.sequence + 1), Issued(s.last, s.sequence + 1), t + 1)
    ensures clock(t) == s.last && s.sequence == MAX_SEQUENCE ==>
              var k := Standing(s.last, clock, t + 1, 5);
              Next(s, clock, t)
                == if k < 5 && clock(t + 1 + k) > s.last then
                     (s.(sequence := 0, last := clock(t + 1 + k)), Issued(clock(t + 1 + k), 0), t + 1 + k + 1)
                   else (s.(sequence := 0), Failed, if k < 5 then t + 1 + k + 1 else t + 6)
  {
    NextSequenceIs(s);
    if clock(t) == s.last && s.sequence == MAX_SEQUENCE { OverflowCall(s, clock, t, 5); }
  }

  lemma OverflowCall(s: State, clock: Clock, t: nat, n: nat)
    requires clock(t) == s.last && NextSequence(s) == 0 && n == MAX_WAIT
    ensures var k := Standing(s.last, clock, t + 1, n);
      Next(s, clock, t)
        == if k < n && clock(t + 1 + k) > s.last then
             (s.(sequence := 0, last := clock(t + 1 + k)), Issued(clock(t + 1 + k), 0), t + 1 + k + 1)
           else (s.(sequence := 0), Failed, if k < n then t + 1 + k + 1 else t + 1 + n)
  {
    var k := Standing(s.last, clock, t + 1, n);
    StandingMeans(s.last, clock, t + 1, n);
    WaitFinds(s.last, clock, t + 1, 0, n, k);
    AfterWait(s, clock, t, Found(s.last, clock, t + 1, k, n));
  }

  lemma AfterWait(s: State, clock: Clock, t: nat, w: (int, nat))
    requires clock(t) == s.last && NextSequence(s) == 0 && Wait(s.last, clock, t + 1, s.last, 0) == w
    ensures Next(s, clock, t)
         == if w.0 > s.last then (s.(sequence := 0, last := w.0), Issued(w.0, 0), w.1)
            else (s.(sequence := 0), Failed, w.1)
  {
  }

  /** A failure can be told from an id: in range every id is positive but one, number 0 of the epoch's
      first millisecond of generator 0, 0. */
  lemma ZeroMeansFailed(dc: nat, worker: nat, o: Outcome)
    requires ValidIds(dc, worker) && (o.Issued? ==> InRange(o.ts) && o.sequence <= MAX_SEQUENCE)
    ensures IdOf(dc, worker, o) >= 0
    ensures IdOf(dc, worker, o) == 0
        <==> o.Failed? || (o.ts == EPOCH && dc == 0 && worker == 0 && o.sequence == 0)
  {
    if o.Issued? { PackInRange(o.ts, dc, worker, o.sequence); }
  }

  /** On a clock that goes back by one millisecond and then forward again the third id is the first. */
  lemma ClockGoingBackRepeatsAnId()
    ensures var c: Clock := (t: nat) => if t == 1 then EPOCH + 6 else EPOCH + 7;
      Call(0, 0, c, 2) == Call(0, 0, c, 0) == Issued(EPOCH + 7, 0)
  {
    var c: Clock := (t: nat) => if t == 1 then EPOCH + 6 else EPOCH + 7;
    OnAnyClock(State(0, 0, 0, -1), c, 0);
    assert After(0, 0, c, 1) == (State(0, 0, 0, EPOCH + 7), 1);
    OnAnyClock(State(0, 0, 0, EPOCH + 7), c, 1);
    assert After(0, 0, c, 2) == (State(0, 0, 0, EPOCH + 6), 2);
    OnAnyClock(State(0, 0, 0, EPOCH + 6), c, 2);
  }

  // ---- A clock that does not run backwards --------------------------------------------------

  ghost predicate GoodClock(clock: Clock)
  {
    && (forall t: nat :: InRange(clock(t)))
    && (forall t: nat, u: nat :: t <= u ==> clock(t) <= clock(u))
  }

  lemma {:induction false} WaitEnds(last: int, clock: Clock, t: nat, ts: int, count: nat)
    requires GoodClock(clock) && count <= MAX_WAIT
    requires ts >= last && (forall u: nat :: u >= t ==> clock(u) >= ts)
    ensures var w := Wait(last, clock, t, ts, count);
      && w.0 >= last && (w.0 == ts || InRange(w.0)) && forall u: nat :: u >= w.1 ==> clock(u) >= w.0
    decreases MAX_WAIT - count
  {
    if ts <= last && count < MAX_WAIT {
      WaitEnds(last, clock, t + 1, clock(t), count + 1);
    }
  }

  /** A generator whose last time is not in the future of the clock. */
  ghost predicate Settled(s: State, clock: Clock, t: nat)
  {
    && s.sequence <= MAX_SEQUENCE
    && (s.last == -1 || InRange(s.last))
    && (s.last == -1 ==> s.sequence == 0)
    && (forall u: nat :: u >= t ==> clock(u) >= s.last)
  }

  /** What a settled call does: it fails only after the last id of a millisecond that has not ended,
      leaving sequence number 0; otherwise it issues the next number of the same millisecond or
      number 0 of a later one. */
  ghost predicate Outcomes(s: State, now: int, s': State, o: Outcome)
  {
    && s'.dc == s.dc && s'.worker == s.worker
    && InRange(s'.last)
    && match o
       case Failed => now == s.last == s'.last && s.sequence == MAX_SEQUENCE && s'.sequence == 0
       case Issued(ts, sequence) =>
         && ts == s'.last && sequence == s'.sequence
         && ((ts == s.last == now && sequence == s.sequence + 1)
             || (ts > s.last && sequence == 0 && (now > s.last || s.sequence == MAX_SEQUENCE)))
  }

  /** The wait ends without a later time exactly if the last of its readings still shows the old one;
      so do, on such a clock, all before it. */
  lemma {:induction false} WaitFailsIff(last: int, clock: Clock, t: nat, ts: int, count: nat)
    requires GoodClock(clock) && count <= MAX_WAIT
    requires ts >= last && (forall u: nat :: u >= t ==> clock(u) >= ts)
    ensures Wait(last, clock, t, ts, count).0 <= last
      <==> ts == last && (count == MAX_WAIT || clock(t + (MAX_WAIT - count) - 1) == last)
    decreases MAX_WAIT - count
  {
    if ts <= last && count < MAX_WAIT {
      WaitFailsIff(last, clock, t + 1, clock(t), count + 1);
      assert clock(t) <= clock(t + (MAX_WAIT - count) - 1);
    }
  }

  /** A call fails exactly if it comes after the last number of a millisecond and all six clock readings,
      the first and the five of the wait, show that millisecond. */
  lemma FailsIff(s: State, clock: Clock, t: nat)
    requires GoodClock(clock) && Settled(s, clock, t)
    ensures Next(s, clock, t).1.Failed?
      <==> s.sequence == MAX_SEQUENCE && forall u :: t <= u <= t + MAX_WAIT ==> clock(u) == s.last
  {
    NextSequenceIs(s);
    if clock(t) == s.last && s.sequence == MAX_SEQUENCE {
      WaitFailsIff(s.last, clock, t + 1, s.last, 0);
      forall u | t <= u <= t + MAX_WAIT ensures s.last <= clock(u) <= clock(t + MAX_WAIT) {}
    }
  }

  lemma NextSettled(s: State, clock: Clock, t: nat)
    requires GoodClock(clock) && Settled(s, clock, t)
    ensures var r := Next(s, clock, t); Settled(r.0, clock, r.2) && Outcomes(s, clock(t), r.0, r.1)
    ensures Next(s, clock, t).1.Failed?
      <==> s.sequence == MAX_SEQUENCE && forall u :: t <= u <= t + MAX_WAIT ==> clock(u) == s.last
  {
    NextSequenceIs(s);
    FailsIff(s, clock, t);
    if clock(t) == s.last && s.sequence == MAX_SEQUENCE {
      WaitEnds(s.last, clock, t + 1, s.last, 0);
    }
  }

  lemma {:induction false} RunSettled(dc: nat, worker: nat, clock: Clock, n: nat)
    requires GoodClock(clock)
    ensures var a := After(dc, worker, clock, n); Settled(a.0, clock, a.1)
    decreases n
  {
    if n > 0 {
      RunSettled(dc, worker, clock, n - 1);
      var a := After(dc, worker, clock, n - 1);
      NextSettled(a.0, clock, a.1);
    }
  }

  /** Call i, seen from the states around it. */
  lemma CallOutcome(dc: nat, worker: nat, clock: Clock, i: nat)
    requires GoodClock(clock)
    ensures var a, b := After(dc, worker, clock, i), After(dc, worker, clock, i + 1);
      && Settled(a.0, clock, a.1) && Settled(b.0, clock, b.1)
      && Outcomes(a.0, clock(a.1), b.0, Call(dc, worker, clock, i))
  {
    RunSettled(dc, worker, clock, i);
    var a := After(dc, worker, clock, i);
    NextSettled(a.0, clock, a.1);
  }

  // ---- Ids increase, and exactly when -------------------------------------------------------

  /** A run seen from outside: the generator before and after every call, the first clock reading of
      every call, and what it returned. */
  datatype Trace = Trace(states: seq<State>, first: seq<int>, outs: seq<Outcome>)

  ghost function StatesOf(dc: nat, worker: nat, clock: Clock, n: nat): (r: seq<State>)
    ensures |r| == n + 1 && forall i :: 0 <= i <= n ==> r[i] == After(dc, worker, clock, i).0
  {
    seq(n + 1, i requires i >= 0 => After(dc, worker, clock, i).0)
  }

  ghost function FirstOf(dc: nat, worker: nat, clock: Clock, n: nat): (r: seq<int>)
    ensures |r| == n && forall i :: 0 <= i < n ==> r[i] == clock(After(dc, worker, clock, i).1)
  {
    seq(n, i requires i >= 0 => clock(After(dc, worker, clock, i).1))
  }

  ghost function CallsOf(dc: nat, worker: nat, clock: Clock, n: nat): (r: seq<Outcome>)
    ensures |r| == n && forall i :: 0 <= i < n ==> r[i] == Call(dc, worker, clock, i)
  {
    seq(n, i requires i >= 0 => Call(dc, worker, clock, i))
  }

  ghost function TraceOf(dc: nat, worker: nat, clock: Clock, n: nat): Trace
  {
    Trace(StatesOf(dc, worker, clock, n), FirstOf(dc, worker, clock, n), CallsOf(dc, worker, clock, n))
  }

  ghost predicate Legal(r: Trace)
  {
    && |r.states| == |r.outs| + 1 && |r.first| == |r.outs|
    && r.states[0].last == -1 && r.states[0].sequence == 0
    && (forall i :: 0 <= i < |r.states| ==>
          ValidIds(r.states[i].dc, r.states[i].worker) && r.states[i].sequence <= MAX_SEQUENCE)
    && (forall i :: 0 <= i < |r.outs| ==>
          r.first[i] >= r.states[i].last && Outcomes(r.states[i], r.first[i], r.states[i + 1], r.outs[i]))
  }

  lemma TraceIsLegal(dc: nat, worker: nat, clock: Clock, n: nat)
    requires GoodClock(clock) && ValidIds(dc, worker)
    ensures Legal(TraceOf(dc, worker, clock, n))
  {
    TraceStates(dc, worker, clock, n);
    TraceCalls(dc, worker, clock, n);
  }

  lemma TraceStates(dc: nat, worker: nat, clock: Clock, n: nat)
    requires ValidIds(dc, worker)
    ensures var r := TraceOf(dc, worker, clock, n);
      && r.states[0].last == -1 && r.states[0].sequence == 0
      && forall i :: 0 <= i < |r.states| ==>
           ValidIds(r.states[i].dc, r.states[i].worker) && r.states[i].sequence <= MAX_SEQUENCE
  {
    var states := TraceOf(dc, worker, clock, n).states;
    forall i | 0 <= i < |states|
      ensures ValidIds(states[i].dc, states[i].worker) && states[i].sequence <= MAX_SEQUENCE
    {
      StateEntry(dc, worker, clock, i);
    }
  }

  lemma TraceCalls(dc: nat, worker: nat, clock: Clock, n: nat)
    requires GoodClock(clock)
    ensures var r := TraceOf(dc, worker, clock, n);
      forall i :: 0 <= i < |r.outs| ==>
        r.first[i] >= r.states[i].last && Outcomes(r.states[i], r.first[i], r.states[i + 1], r.outs[i])
  {
    var r := TraceOf(dc, worker, clock, n);
    forall i | 0 <= i < |r.outs|
      ensures r.first[i] >= r.states[i].last && Outcomes(r.states[i], r.first[i], r.states[i + 1], r.outs[i])
    {
      TraceCall(dc, worker, clock, n, i);
    }
  }

  lemma TraceCall(dc: nat, worker: nat, clock: Clock, n: nat, i: nat)
    requires GoodClock(clock) && i < n
    ensures var r := TraceOf(dc, worker, clock, n);
      r.first[i] >= r.states[i].last && Outcomes(r.states[i], r.first[i], r.states[i + 1], r.outs[i])
  {
    CallEntry(dc, worker, clock, i);
    var r := TraceOf(dc, worker, clock, n);
    assert r.states[i] == After(dc, worker, clock, i).0;
    assert r.states[i + 1] == After(dc, worker, clock, i + 1).0;
    assert r.first[i] == clock(After(dc, worker, clock, i).1);
    assert r.outs[i] == Call(dc, worker, clock, i);
  }

  lemma StateEntry(dc: nat, worker: nat, clock: Clock, i: nat)
    ensures var s := After(dc, worker, clock, i).0;
      s.dc == dc && s.worker == worker && s.sequence <= MAX_SEQUENCE
  {
    SequenceBounded(dc, worker, clock, i);
  }

  lemma CallEntry(dc: nat, worker: nat, clock: Clock, i: nat)
    requires GoodClock(clock)
    ensures var a, b := After(dc, worker, clock, i), After(dc, worker, clock, i + 1);
      clock(a.1) >= a.0.last && Outcomes(a.0, clock(a.1), b.0, Call(dc, worker, clock, i))
  {
    CallOutcome(dc, worker, clock, i);
  }

  ghost predicate Increasing(dc: nat, worker: nat, outs: seq<Outcome>)
  {
    forall i, j :: 0 <= i < j < |outs| && outs[i].Issued? && outs[j].Issued? ==>
      IdOf(dc, worker, outs[i]) < IdOf(dc, worker, outs[j])
  }

  /** Call k fails and the call after it starts in the same millisecond. */
  predicate RestartsAt(r: Trace, k: nat)
  {
    && k + 1 < |r.outs| && k + 1 < |r.first| && k + 1 < |r.states|
    && r.outs[k].Failed? && r.first[k + 1] <= r.states[k + 1].last
  }

  ghost predicate NeverRestarts(r: Trace) { forall k: nat :: !RestartsAt(r, k) }

  /** Within one generator, ids are ordered by time and then sequence number. */
  predicate Earlier(a: Outcome, b: Outcome)
    requires a.Issued? && b.Issued?
  {
    a.ts < b.ts || (a.ts == b.ts && a.sequence < b.sequence)
  }

  lemma IdsOrdered(dc: nat, worker: nat, a: Outcome, b: Outcome)
    requires ValidIds(dc, worker) && a.Issued? && b.Issued? && InRange(a.ts) && InRange(b.ts)
    requires a.sequence <= MAX_SEQUENCE && b.sequence <= MAX_SEQUENCE
    ensures IdOf(dc, worker, a) < IdOf(dc, worker, b) <==> Earlier(a, b)
  {
    PackInRange(a.ts, dc, worker, a.sequence);
    PackInRange(b.ts, dc, worker, b.sequence);
  }

  ghost predicate InOrder(outs: seq<Outcome>)
  {
    forall i, j :: 0 <= i < j < |outs| && outs[i].Issued? && outs[j].Issued? ==> Earlier(outs[i], outs[j])
  }

  /** Nothing issued so far is later than the generator's last time, nor, unless the latest call
      failed, than its current id. */
  ghost predicate BoundedBy(outs: seq<Outcome>, s: State, failed: bool)
  {
    forall i :: 0 <= i < |outs| && outs[i].Issued? ==>
      outs[i].ts < s.last || (outs[i].ts == s.last && (failed || outs[i].sequence <= s.sequence))
  }

  lemma {:induction false} InOrderUpTo(r: Trace, n: nat)
    requires Legal(r) && NeverRestarts(r) && n <= |r.outs|
    ensures InOrder(r.outs[..n])
    ensures n > 0 ==> BoundedBy(r.outs[..n], r.states[n], r.outs[n - 1].Failed?)
    decreases n
  {
    if n > 0 {
      var m := n - 1;
      InOrderUpTo(r, m);
      assert Outcomes(r.states[m], r.first[m], r.states[n], r.outs[m]);
      if m > 0 { assert !RestartsAt(r, m - 1); }
      assert r.outs[..n] == r.outs[..m] + [r.outs[m]];
    }
  }

  /** A restart is preceded by the last id of its millisecond and followed by id number 1 of the same
      millisecond. */
  lemma RestartGoesBack(r: Trace, k: nat)
    requires Legal(r) && RestartsAt(r, k)
    ensures var last := r.states[k + 1].last;
      k > 0 && r.outs[k - 1] == Issued(last, MAX_SEQUENCE) && r.outs[k + 1] == Issued(last, 1)
  {
    assert Outcomes(r.states[k], r.first[k], r.states[k + 1], r.outs[k]);
    assert k > 0;
    assert Outcomes(r.states[k - 1], r.first[k - 1], r.states[k], r.outs[k - 1]);
    assert Outcomes(r.states[k + 1], r.first[k + 1], r.states[k + 2], r.outs[k + 1]);
  }

  lemma TraceInOrderIff(r: Trace)
    requires Legal(r)
    ensures InOrder(r.outs) <==> NeverRestarts(r)
  {
    if NeverRestarts(r) {
      InOrderUpTo(r, |r.outs|);
      assert r.outs[..|r.outs|] == r.outs;
    } else {
      var k: nat :| RestartsAt(r, k);
      RestartGoesBack(r, k);
      assert !Earlier(r.outs[k - 1], r.outs[k + 1]);
    }
  }

  lemma IncreasingIsInOrder(dc: nat, worker: nat, r: Trace)
    requires Legal(r) && ValidIds(dc, worker)
    ensures Increasing(dc, worker, r.outs) <==> InOrder(r.outs)
  {
    forall i, j | 0 <= i < j < |r.outs| && r.outs[i].Issued? && r.outs[j].Issued?
      ensures IdOf(dc, worker, r.outs[i]) < IdOf(dc, worker, r.outs[j]) <==> Earlier(r.outs[i], r.outs[j])
    {
      assert Outcomes(r.states[i], r.first[i], r.states[i + 1], r.outs[i]);
      assert Outcomes(r.states[j], r.first[j], r.states[j + 1], r.outs[j]);
      IdsOrdered(dc, worker, r.outs[i], r.outs[j]);
    }
  }

  /** Over any run on a non-decreasing clock in range, the ids of one generator strictly increase
      exactly when no call that failed is followed by one in the same millisecond. In particular
      they do over every run without a failure. */
  lemma IncreasingIff(dc: nat, worker: nat, clock: Clock, n: nat)
    requires GoodClock(clock) && ValidIds(dc, worker)
    ensures var r := TraceOf(dc, worker, clock, n);
      Increasing(dc, worker, r.outs) <==> NeverRestarts(r)
  {
    TraceIsLegal(dc, worker, clock, n);
    IncreasingIsInOrder(dc, worker, TraceOf(dc, worker, clock, n));
    TraceInOrderIff(TraceOf(dc, worker, clock, n));
  }

  // ---- A repeated id ------------------------------------------------------------------------

  const FROZEN: int := EPOCH + 5

  function FrozenClock(): Clock { t => FROZEN }

  lemma {:induction false} FrozenRun(n: nat)
    requires 1 <= n <= 4096
    ensures After(0, 0, FrozenClock(), n).0 == State(0, 0, n - 1, FROZEN)
    ensures Call(0, 0, FrozenClock(), n - 1) == Issued(FROZEN, n - 1)
  {
    if n > 1 {
      FrozenRun(n - 1);
      NextSequenceIs(After(0, 0, FrozenClock(), n - 1).0);
    }
  }

  lemma FrozenWait(t: nat, count: nat)
    requires count <= MAX_WAIT
    ensures Wait(FROZEN, FrozenClock(), t, FROZEN, count).0 == FROZEN
    decreases MAX_WAIT - count
  {
    if count < MAX_WAIT { FrozenWait(t + 1, count + 1); }
  }

  lemma FrozenFails(s: State, t: nat)
    requires s == State(0, 0, MAX_SEQUENCE, FROZEN)
    ensures var r := Next(s, FrozenClock(), t); r.0 == State(0, 0, 0, FROZEN) && r.1 == Failed
  {
    NextSequenceIs(s);
    FrozenWait(t + 1, 0);
  }

  lemma FrozenRestarts(s: State, t: nat)
    requires s == State(0, 0, 0, FROZEN)
    ensures Next(s, FrozenClock(), t).1 == Issued(FROZEN, 1)
  {
    NextSequenceIs(s);
  }

  /** On a clock that stands still, after n = 4096 ids the next call fails and the one after it
      repeats the second id. */
  lemma StandingClockRepeatsAnId(n: nat)
    requires n == 4096
    ensures var c := FrozenClock();
      && Call(0, 0, c, n).Failed?
      && Call(0, 0, c, n + 1) == Call(0, 0, c, 1) == Issued(FROZEN, 1)
  {
    var c := FrozenClock();
    FrozenRun(n);
    var a := After(0, 0, c, n);
    FrozenFails(a.0, a.1);
    var b := After(0, 0, c, n + 1);
    FrozenRestarts(b.0, b.1);
    FrozenRun(2);
  }
}

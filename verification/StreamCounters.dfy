/** Any set of streamed transfers sharing one set of counters. */
module StreamCounters {
  import opened Stream
  import opened StreamProofs

  /** A started transfer; `alive` until its state object is destroyed. The counters inside `x` are a
      snapshot and are refreshed from the shared ones before every use. */
  datatype Slot = Slot(x: Xfer, alive: bool)

  datatype System = System(stats: Stats, slots: seq<Slot>)

  datatype Op =
    | Begin(ps: Params, env: SendEnv)
    | Event(k: nat, p: Poll)
    | Kill(k: nat)

  function Synced(x: Xfer, st: Stats): Xfer { x.(stats := st) }

  function Apply(sys: System, op: Op): System
  {
    match op
    case Begin(ps, env) =>
      (match Send(ps, env, sys.stats, [])
       case Refused(_) => sys
       case Started(x, _) => System(x.stats, sys.slots + [Slot(x, true)]))
    case Event(k, p) =>
      if k < |sys.slots| && sys.slots[k].alive && sys.slots[k].x.onwrite then
        var y := Pump(Synced(sys.slots[k].x, sys.stats), p);
        System(y.stats, sys.slots[k := Slot(y, true)])
      else sys
    case Kill(k) =>
      if k < |sys.slots| && sys.slots[k].alive then
        var y := Destroy(Synced(sys.slots[k].x, sys.stats));
        System(y.stats, sys.slots[k := Slot(y, false)])
      else sys
  }

  function Run(ops: seq<Op>): System
  {
    if ops == [] then System(NoStats, []) else Apply(Run(ops[..|ops| - 1]), ops[|ops| - 1])
  }

  /** The transfer has reported its end or will never report it. */
  predicate Ended(s: Slot) { s.x.finished || !s.alive }

  function EndedCount(slots: seq<Slot>): (n: nat)
    ensures n <= |slots|
  {
    if slots == [] then 0
    else EndedCount(slots[..|slots| - 1]) + if Ended(slots[|slots| - 1]) then 1 else 0
  }

  function BytesAsked(slots: seq<Slot>): int
  {
    if slots == [] then 0 else BytesAsked(slots[..|slots| - 1]) + slots[|slots| - 1].x.len
  }

  /** A transfer that has told its callback it failed. */
  predicate ToldFailed(s: Slot) { s.x.completions == [false] }

  /** A transfer that has ended with nobody to tell. */
  predicate EndedSilently(s: Slot) { Ended(s) && !s.x.hasCallback }

  function FailedCount(slots: seq<Slot>): nat
  {
    if slots == [] then 0
    else FailedCount(slots[..|slots| - 1]) + if ToldFailed(slots[|slots| - 1]) then 1 else 0
  }

  function SilentCount(slots: seq<Slot>): nat
  {
    if slots == [] then 0
    else SilentCount(slots[..|slots| - 1]) + if EndedSilently(slots[|slots| - 1]) then 1 else 0
  }

  lemma CountSnoc(slots: seq<Slot>, s: Slot)
    ensures EndedCount(slots + [s]) == EndedCount(slots) + (if Ended(s) then 1 else 0)
    ensures BytesAsked(slots + [s]) == BytesAsked(slots) + s.x.len
    ensures FailedCount(slots + [s]) == FailedCount(slots) + (if ToldFailed(s) then 1 else 0)
    ensures SilentCount(slots + [s]) == SilentCount(slots) + (if EndedSilently(s) then 1 else 0)
  {
    assert (slots + [s])[..|slots|] == slots;
  }

  lemma {:induction false} CountUpdate(slots: seq<Slot>, k: nat, s: Slot)
    requires k < |slots| && s.x.len == slots[k].x.len
    ensures EndedCount(slots[k := s]) - (if Ended(s) then 1 else 0)
         == EndedCount(slots) - (if Ended(slots[k]) then 1 else 0)
    ensures BytesAsked(slots[k := s]) == BytesAsked(slots)
    ensures FailedCount(slots[k := s]) - (if ToldFailed(s) then 1 else 0)
         == FailedCount(slots) - (if ToldFailed(slots[k]) then 1 else 0)
    ensures SilentCount(slots[k := s]) - (if EndedSilently(s) then 1 else 0)
         == SilentCount(slots) - (if EndedSilently(slots[k]) then 1 else 0)
    decreases |slots|
  {
    var n := |slots| - 1;
    if k < n {
      CountUpdate(slots[..n], k, s);
      assert slots[k := s][..n] == slots[..n][k := s];
    } else {
      assert slots[k := s][..n] == slots[..n];
    }
  }

  ghost predicate SlotInv(s: Slot)
  {
    && XferInv(s.x)
    && |s.x.completions| == (if Ended(s) && s.x.hasCallback then 1 else 0)
  }

  ghost predicate SlotsInv(slots: seq<Slot>) { forall k :: 0 <= k < |slots| ==> SlotInv(slots[k]) }

  ghost predicate AccountsBalance(sys: System)
  {
    var st, ended, failed := sys.stats, EndedCount(sys.slots), FailedCount(sys.slots);
    && st.totalCount == |sys.slots|
    && st.activeCount == |sys.slots| - ended
    && failed <= st.errorCount <= failed + SilentCount(sys.slots)
    && st.totalBytes == BytesAsked(sys.slots)
  }

  /** `send` of any request that is not refused: one account opened, and completed at most once. */
  lemma SentCompletesOnce(ps: Params, env: SendEnv, stats: Stats)
    requires !Refuses(ps, env)
    ensures var x0 := Fresh(ps, stats, []).(out := [Headers]);
      var x := Send(ps, env, stats, []).x;
      && XferInv(x) && CompletesOnce(x0, x) && x.len == SendLen(ps) && x.hasCallback == ps.hasCallback
  {
    var x0 := Fresh(ps, stats, []).(out := [Headers]);
    assert [] + [Headers] == [Headers];
    HeadersPhase(ps, env, stats, []);
    var h := Callbacks(x0, env.onHeaders);
    if SendLen(ps) == 0 {
      var e := h.(out := h.out + [End]);
      EndKeepsInv(h);
      EndOnly(x0, h);
      CallbacksKeepInv(e, env.onEnd);
      CallbacksCompleteOnce(e, env.onEnd);
      var f := Callbacks(e, env.onEnd);
      CompletesOnceTrans(x0, e, f);
      FinishOnce(x0, f);
    }
  }

  lemma EndOnly(x0: Xfer, h: Xfer)
    requires CompletesOnce(x0, h) && Advances(x0, h) && !x0.finished && x0.len == 0
    ensures var e := h.(out := h.out + [End]); CompletesOnce(x0, e) && Advances(x0, e)
  {
    var e := h.(out := h.out + [End]);
    if h.finished {
      assert Closed(x0, h);
      var success :| && h.stats == RecordEnd(x0.stats, success)
                     && h.completions == x0.completions + (if x0.hasCallback then [success] else [])
                     && (success && x0.len > 0 ==> |Handed(h.out)| == x0.len);
      assert Closed(x0, e);
    }
  }

  lemma FinishOnce(x0: Xfer, f: Xfer)
    requires CompletesOnce(x0, f) && Advances(x0, f) && XferInv(f) && !x0.finished && x0.len == 0
    ensures CompletesOnce(x0, Finish(f, true)) && XferInv(Finish(f, true))
  {
    FinishKeepsInv(f, true);
    if !f.finished {
      var y := Finish(f, true);
      assert y.stats == RecordEnd(x0.stats, true);
      assert Closed(x0, y);
    }
  }

  /** What completing once means for the books: if the slot ended in this step, one active transfer
      fewer and at most one error more; otherwise the counters stand still. */
  lemma BooksMove(x: Xfer, y: Xfer)
    requires CompletesOnce(x, y)
    ensures y.stats.totalCount == x.stats.totalCount && y.stats.totalBytes == x.stats.totalBytes
    ensures var now := y.finished && !x.finished;
      && y.stats.activeCount == x.stats.activeCount - (if now then 1 else 0)
      && x.stats.errorCount <= y.stats.errorCount <= x.stats.errorCount + (if now then 1 else 0)
      && |y.completions| == |x.completions| + (if now && x.hasCallback then 1 else 0)
      && (now && x.hasCallback && x.completions == [] ==>
            y.stats.errorCount == x.stats.errorCount + (if y.completions == [false] then 1 else 0))
      && (!now ==> y.completions == x.completions && y.stats.errorCount == x.stats.errorCount)
  {
    if y.finished && !x.finished {
      assert Closed(x, y);
      var success :| && y.stats == RecordEnd(x.stats, success)
                     && y.completions == x.completions + (if x.hasCallback then [success] else [])
                     && (success && x.len > 0 ==> |Handed(y.out)| == x.len);
      if x.completions == [] && x.hasCallback { assert y.completions == [success]; }
    }
  }

  lemma BeginKeepsBooks(sys: System, ps: Params, env: SendEnv)
    requires SlotsInv(sys.slots) && AccountsBalance(sys)
    ensures var s' := Apply(sys, Begin(ps, env)); SlotsInv(s'.slots) && AccountsBalance(s')
  {
    if !Refuses(ps, env) {
      var x0 := Fresh(ps, sys.stats, []).(out := [Headers]);
      var x := Send(ps, env, sys.stats, []).x;
      SentCompletesOnce(ps, env, sys.stats);
      BooksMove(x0, x);
      CountSnoc(sys.slots, Slot(x, true));
    }
  }

  lemma EventKeepsBooks(sys: System, k: nat, p: Poll)
    requires SlotsInv(sys.slots) && AccountsBalance(sys)
    ensures var s' := Apply(sys, Event(k, p)); SlotsInv(s'.slots) && AccountsBalance(s')
  {
    if k < |sys.slots| && sys.slots[k].alive && sys.slots[k].x.onwrite {
      var x := Synced(sys.slots[k].x, sys.stats);
      assert SlotInv(sys.slots[k]);
      SyncKeepsInv(sys.slots[k].x, sys.stats);
      var y := Pump(x, p);
      PumpKeepsInv(x, p);
      PumpCompletesOnce(x, p);
      BooksMove(x, y);
      CountUpdate(sys.slots, k, Slot(y, true));
    }
  }

  lemma SyncKeepsInv(x: Xfer, st: Stats)
    requires XferInv(x)
    ensures XferInv(Synced(x, st))
  {
  }

  lemma KillKeepsBooks(sys: System, k: nat)
    requires SlotsInv(sys.slots) && AccountsBalance(sys)
    ensures var s' := Apply(sys, Kill(k)); SlotsInv(s'.slots) && AccountsBalance(s')
  {
    if k < |sys.slots| && sys.slots[k].alive {
      assert SlotInv(sys.slots[k]);
      var y := Destroy(Synced(sys.slots[k].x, sys.stats));
      assert XferInv(y);
      CountUpdate(sys.slots, k, Slot(y, false));
    }
  }

  /** Over every run of transfers, callbacks and destructions: started transfers are counted once,
      `activeCount` is the number not yet ended, every ended transfer with a callback has been
      reported exactly once, and errors are counted for exactly those reported as failed, besides
      some that ended with nobody to tell. */
  lemma {:induction false} CountersAlwaysBalance(ops: seq<Op>)
    ensures var sys := Run(ops); AccountsBalance(sys) && SlotsInv(sys.slots)
    decreases |ops|
  {
    if ops != [] {
      var front := ops[..|ops| - 1];
      CountersAlwaysBalance(front);
      match ops[|ops| - 1]
      case Begin(ps, env) => BeginKeepsBooks(Run(front), ps, env);
      case Event(k, p) => EventKeepsBooks(Run(front), k, p);
      case Kill(k) => KillKeepsBooks(Run(front), k);
    }
  }
}

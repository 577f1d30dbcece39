/** The asynchronous dispatcher around a handler that may start a streamed transfer. */
module Router {
  import opened Wrappers
  import S = Stream
  import opened StreamProofs
  import opened StreamOutcome
  import C = StreamCounters
  import O = StreamObjects

  /** Where an exception leaves the handler or the middleware around it: before it calls the stream
      transfer, inside `send` while the response headers are prepared, inside `send` while they are
      written (the callback is registered by then), or after `send` has returned. */
  datatype Raise = Never | BeforeSend | Preparing | InHeaders | AfterSend

  /** What one task does: the transfer it asks for, if any, and the exceptions it meets; `endRaises`
      is one out of the dispatcher's own call to `End`. */
  datatype HandlerRun = HandlerRun(sends: Option<(S.Params, S.SendEnv)>, raise: Raise, endRaises: bool)

  /** The chain's effect: the transfer left under way, whether the context is marked as handed off,
      whether an exception reached the dispatcher's `catch`. `aside` is what `onComplete` was told with
      no transfer left: by an early return of `send` or by the destructor of its state object. */
  datatype ChainEnd = ChainEnd(x: Option<S.Xfer>, marked: bool, raised: bool, stats: S.Stats, aside: seq<bool>)

  /** The whole task. `handoff` is the dispatcher's own flag; `delta` is what the task contributes to
      the tracker; `escaped` says an exception leaves the task itself. */
  datatype TaskEnd = TaskEnd(x: Option<S.Xfer>, handoff: bool, out: seq<S.WriterEvent>, stats: S.Stats,
                             aside: seq<bool>, delta: int, escaped: bool)

  function EnvOf(run: HandlerRun, hasWriter: bool): S.SendEnv
    requires run.sends.Some?
  {
    run.sends.value.1.(hasWriter := hasWriter)
  }

  /** The transfer once its headers have been written. */
  function Opened(ps: S.Params, env: S.SendEnv, stats: S.Stats): S.Xfer
  {
    S.Callbacks(S.Fresh(ps, stats, []).(out := [S.Headers]), env.onHeaders)
  }

  /** The handler gets as far as calling `send`. */
  predicate CallsSend(run: HandlerRun) { run.sends.Some? && !run.raise.BeforeSend? }

  function Failed(ps: S.Params): seq<bool> { if ps.hasCallback then [false] else [] }

  function RunChain(run: HandlerRun, hasWriter: bool, stats: S.Stats): ChainEnd
  {
    if !CallsSend(run) then ChainEnd(None, false, !run.raise.Never?, stats, [])
    else
      var ps, env := run.sends.value.0, EnvOf(run, hasWriter);
      if S.Refuses(ps, env) then ChainEnd(None, false, !run.raise.Never?, stats, Failed(ps))
      else if run.raise.Preparing? then
        ChainEnd(None, false, true, S.RecordEnd(S.RecordStart(stats, S.SendLen(ps)), false), Failed(ps))
      else if run.raise.InHeaders? then
        var x := Opened(ps, env, stats);
        ChainEnd(Some(x), false, true, x.stats, [])
      else
        var sent := S.Send(ps, env, stats, []);
        ChainEnd(Some(sent.x), sent.handoff, run.raise.AfterSend?, sent.x.stats, [])
  }

  /** Run the chain, read the mark unless an exception escaped it, end the response unless it was handed
      over, report to the tracker unless ending it raised. */
  function RunTask(run: HandlerRun, hasWriter: bool, stats: S.Stats): TaskEnd
  {
    var c := RunChain(run, hasWriter, stats);
    var handoff := c.marked && !c.raised;
    var ends := !handoff && hasWriter;
    var before := if c.x.Some? then c.x.value.out else [];
    var out := if ends then before + [S.End] else before;
    var escaped := ends && run.endRaises;
    TaskEnd(if c.x.Some? then Some(c.x.value.(out := out)) else None, handoff, out, c.stats,
            c.aside, if escaped then 0 else -1, escaped)
  }

  /** A transfer is under way when the chain is left. */
  predicate Transfers(run: HandlerRun, hasWriter: bool, stats: S.Stats)
  {
    RunChain(run, hasWriter, stats).x.Some?
  }

  function LenOf(run: HandlerRun): int
    requires run.sends.Some?
  {
    S.SendLen(run.sends.value.0)
  }

  /** The transfer after the task and any number of later callbacks. */
  function After(run: HandlerRun, hasWriter: bool, stats: S.Stats, events: seq<S.Poll>): S.Xfer
    requires Transfers(run, hasWriter, stats)
  {
    S.Callbacks(RunTask(run, hasWriter, stats).x.value, events)
  }

  // ---- Not too early ------------------------------------------------------------------------

  lemma OpenedInv(ps: S.Params, env: S.SendEnv, stats: S.Stats)
    ensures var x := Opened(ps, env, stats); S.XferInv(x) && x.len == S.SendLen(ps)
  {
    assert [] + [S.Headers] == [S.Headers];
    HeadersPhase(ps, env, stats, []);
  }

  /** Of a non-empty request, the chain leaves the transfer as its headers left it. */
  lemma ChainOpens(run: HandlerRun, hasWriter: bool, stats: S.Stats)
    requires Transfers(run, hasWriter, stats) && LenOf(run) != 0
    ensures var c := RunChain(run, hasWriter, stats);
      && c.x.value == Opened(run.sends.value.0, EnvOf(run, hasWriter), stats)
      && hasWriter && c.marked == !run.raise.InHeaders? && c.raised == !run.raise.Never?
      && S.XferInv(c.x.value) && c.x.value.len == LenOf(run)
  {
    OpenedInv(run.sends.value.0, EnvOf(run, hasWriter), stats);
    assert [] + [S.Headers] == [S.Headers];
  }

  /** For a non-empty request that starts a transfer: no `End` ever reaches the writer before all
      its bytes, whatever callbacks follow, exactly when no exception left the handler, or the bytes
      had already all been handed over when it did. */
  lemma NoEarlyEndIff(run: HandlerRun, hasWriter: bool, stats: S.Stats)
    requires Transfers(run, hasWriter, stats) && LenOf(run) > 0
    ensures (forall events :: S.EndsAfter(After(run, hasWriter, stats, events).out, LenOf(run)))
      <==> (run.raise.Never? || |S.Handed(RunChain(run, hasWriter, stats).x.value.out)| == LenOf(run))
  {
    ChainOpens(run, hasWriter, stats);
    var x, len := RunChain(run, hasWriter, stats).x.value, LenOf(run);
    var y := RunTask(run, hasWriter, stats).x.value;
    if run.raise.Never? || |S.Handed(x.out)| == len {
      if !run.raise.Never? { EndKeepsInv(x); }
      forall events ensures S.EndsAfter(After(run, hasWriter, stats, events).out, len) {
        CallbacksKeepInv(y, events);
      }
    } else {
      assert y.out == x.out + [S.End];
      assert After(run, hasWriter, stats, []) == y;
      assert y.out[|x.out|].End? && y.out[..|x.out|] == x.out;
      assert !S.EndsAfter(y.out, len);
    }
  }

  /** A handler that throws after `send` has returned, before any callback has fired: the dispatcher
      ends the response with no byte handed over. */
  lemma EarlyEndAfterRaise()
    ensures var ps, env := S.Params([1], 1, -1, -1, true), S.SendEnv(true, true, true, [], []);
      var run := HandlerRun(Some((ps, env)), AfterSend, false);
      && Transfers(run, true, S.NoStats) && LenOf(run) == 1
      && After(run, true, S.NoStats, []).out == [S.Headers, S.End]
      && !S.EndsAfter(After(run, true, S.NoStats, []).out, 1)
  {
    var out := [S.Headers, S.End];
    assert [] + [S.Headers] == [S.Headers];
    assert out[1].End? && out[..1] == [S.Headers] && S.Handed([S.Headers]) == [];
    assert !S.EndsAfter(out, 1);
  }

  // ---- Completion, whatever way `send` is left ----------------------------------------------

  /** Everything `onComplete` is ever told: by the task, by later callbacks, by the destructor. */
  function Reported(run: HandlerRun, hasWriter: bool, stats: S.Stats, events: seq<S.Poll>): seq<bool>
  {
    var r := RunTask(run, hasWriter, stats);
    r.aside + if r.x.Some? then S.Destroy(S.Callbacks(r.x.value, events)).completions else []
  }

  function FinalStats(run: HandlerRun, hasWriter: bool, stats: S.Stats, events: seq<S.Poll>): S.Stats
  {
    var r := RunTask(run, hasWriter, stats);
    if r.x.Some? then S.Destroy(S.Callbacks(r.x.value, events)).stats else r.stats
  }

  /** Two transfers that differ at most in where `End` was written. */
  predicate Alike(x: S.Xfer, y: S.Xfer) { x.(out := y.out) == y && S.Handed(x.out) == S.Handed(y.out) }

  lemma AlikeSnoc(x: S.Xfer, y: S.Xfer, e: S.WriterEvent)
    requires Alike(x, y)
    ensures Alike(x.(out := x.out + [e]), y.(out := y.out + [e]))
  {
    HandedSnoc(x.out, e);
    HandedSnoc(y.out, e);
  }

  lemma {:induction false} PumpAlike(x: S.Xfer, y: S.Xfer, p: S.Poll)
    requires Alike(x, y)
    ensures Alike(S.Pump(x, p), S.Pump(y, p))
    decreases p, 0
  {
    if !x.finished && p.connected && p.drained {
      var got := S.ReadCount(x, S.Min(x.remaining, S.CHUNK_SIZE), p.available);
      if got > 0 {
        HandOverAlike(x, y, got);
        CallbacksAlike(S.HandOver(x, got), S.HandOver(y, got), p.during);
        PumpWritesAlike(x, y, p, got);
      }
    }
  }

  lemma HandOverAlike(x: S.Xfer, y: S.Xfer, got: nat)
    requires Alike(x, y) && x.pos + got <= |x.file|
    ensures Alike(S.HandOver(x, got), S.HandOver(y, got))
  {
    var e := S.Body(x.file[x.pos..x.pos + got]);
    HandedSnoc(x.out, e);
    HandedSnoc(y.out, e);
    HandOverAppends(x, got, e);
    HandOverAppends(y, got, e);
    SameButOut(x, y, got);
  }

  lemma HandOverAppends(x: S.Xfer, got: nat, e: S.WriterEvent)
    requires x.pos + got <= |x.file| && e == S.Body(x.file[x.pos..x.pos + got])
    ensures S.HandOver(x, got).out == x.out + [e]
  {
  }

  lemma SameButOut(x: S.Xfer, y: S.Xfer, got: nat)
    requires y == x.(out := y.out) && x.pos + got <= |x.file|
    ensures var hx, hy := S.HandOver(x, got), S.HandOver(y, got); hy == hx.(out := hy.out)
  {
  }

  lemma PumpWritesAlike(x: S.Xfer, y: S.Xfer, p: S.Poll, got: nat)
    requires Alike(x, y) && !x.finished && p.connected && p.drained && got > 0
    requires got == S.ReadCount(x, S.Min(x.remaining, S.CHUNK_SIZE), p.available)
    requires Alike(S.Callbacks(S.HandOver(x, got), p.during), S.Callbacks(S.HandOver(y, got), p.during))
    ensures Alike(S.Pump(x, p), S.Pump(y, p))
  {
    AfterWriteAlike(S.Callbacks(S.HandOver(x, got), p.during), S.Callbacks(S.HandOver(y, got), p.during), p.reply);
    PumpWrites(x, p, got);
    PumpWrites(y, p, got);
  }

  lemma AfterWriteAlike(x: S.Xfer, y: S.Xfer, reply: int)
    requires Alike(x, y)
    ensures Alike(AfterWrite(x, reply), AfterWrite(y, reply))
  {
    AlikeSnoc(x, y, S.End);
  }

  lemma {:induction false} CallbacksAlike(x: S.Xfer, y: S.Xfer, ps: seq<S.Poll>)
    requires Alike(x, y)
    ensures Alike(S.Callbacks(x, ps), S.Callbacks(y, ps))
    decreases ps
  {
    if ps != [] {
      var front := ps[..|ps| - 1];
      CallbacksAlike(x, y, front);
      PumpAlike(S.Callbacks(x, front), S.Callbacks(y, front), ps[|ps| - 1]);
    }
  }

  /** `z` is the end of a life that began with `x0`. */
  ghost predicate ClosedOnce(x0: S.Xfer, z: S.Xfer)
  {
    exists success ::
      && z.completions == (if x0.hasCallback then [success] else [])
      && z.stats == S.RecordEnd(x0.stats, success)
      && (success && x0.len > 0 ==> |S.Handed(z.out)| == x0.len)
  }

  lemma ClosedAlike(x0: S.Xfer, z: S.Xfer, w: S.Xfer)
    requires ClosedOnce(x0, z) && Alike(z, w)
    ensures ClosedOnce(x0, w)
  {
  }

  lemma FinishedIsClosed(x0: S.Xfer, y: S.Xfer)
    requires CompletesOnce(x0, y) && !x0.finished && x0.completions == [] && y.hasCallback == x0.hasCallback
    ensures ClosedOnce(x0, S.Destroy(y))
  {
    if y.finished {
      assert Closed(x0, y);
    } else {
      var z := S.Destroy(y);
      assert z.completions == (if x0.hasCallback then [false] else []);
      assert z.stats == S.RecordEnd(x0.stats, false);
    }
  }

  lemma OpenedCloses(ps: S.Params, env: S.SendEnv, stats: S.Stats, events: seq<S.Poll>)
    ensures ClosedOnce(S.Fresh(ps, stats, []).(out := [S.Headers]),
                       S.Destroy(S.Callbacks(Opened(ps, env, stats), events)))
  {
    var x0, x := S.Fresh(ps, stats, []).(out := [S.Headers]), Opened(ps, env, stats);
    assert [] + [S.Headers] == [S.Headers];
    HeadersPhase(ps, env, stats, []);
    CallbacksKeepInv(x, events);
    CallbacksCompleteOnce(x, events);
    CompletesOnceTrans(x0, x, S.Callbacks(x, events));
    FinishedIsClosed(x0, S.Callbacks(x, events));
  }

  lemma EmptySentCloses(ps: S.Params, env: S.SendEnv, stats: S.Stats)
    requires !S.Refuses(ps, env) && S.SendLen(ps) == 0
    ensures var x := S.Send(ps, env, stats, []).x;
      x.finished && !x.onwrite && ClosedOnce(S.Fresh(ps, stats, []).(out := [S.Headers]), x)
  {
    C.SentCompletesOnce(ps, env, stats);
    FinishedIsClosed(S.Fresh(ps, stats, []).(out := [S.Headers]), S.Send(ps, env, stats, []).x);
  }

  /** Ending the response early changes neither what is reported nor what is handed over. */
  lemma EndedAlike(x: S.Xfer, y: S.Xfer, events: seq<S.Poll>)
    requires y == x || y == x.(out := x.out + [S.End])
    ensures Alike(S.Destroy(S.Callbacks(x, events)), S.Destroy(S.Callbacks(y, events)))
  {
    HandedSnoc(x.out, S.End);
    CallbacksAlike(x, y, events);
  }

  lemma TransferCloses(run: HandlerRun, hasWriter: bool, stats: S.Stats, events: seq<S.Poll>)
    requires Transfers(run, hasWriter, stats)
    ensures ClosedOnce(S.Fresh(run.sends.value.0, stats, []).(out := [S.Headers]),
                       S.Destroy(After(run, hasWriter, stats, events)))
  {
    var ps, env := run.sends.value.0, EnvOf(run, hasWriter);
    var x, y := RunChain(run, hasWriter, stats).x.value, RunTask(run, hasWriter, stats).x.value;
    if LenOf(run) == 0 && !run.raise.InHeaders? {
      EmptySentCloses(ps, env, stats);
      NoCallbackNoChange(x, events);
    } else {
      OpenedCloses(ps, env, stats, events);
      if LenOf(run) != 0 { ChainOpens(run, hasWriter, stats); }
    }
    EndedAlike(x, y, events);
    ClosedAlike(S.Fresh(ps, stats, []).(out := [S.Headers]),
                S.Destroy(S.Callbacks(x, events)), S.Destroy(S.Callbacks(y, events)));
  }

  ghost predicate ReportsOnce(run: HandlerRun, hasWriter: bool, stats: S.Stats, events: seq<S.Poll>, success: bool)
    requires CallsSend(run)
  {
    var ps := run.sends.value.0;
    && Reported(run, hasWriter, stats, events) == (if ps.hasCallback then [success] else [])
    && FinalStats(run, hasWriter, stats, events)
         == (if S.Refuses(ps, EnvOf(run, hasWriter)) then stats
             else S.RecordEnd(S.RecordStart(stats, LenOf(run)), success))
    && (success ==> Transfers(run, hasWriter, stats))
    && (success && LenOf(run) > 0 ==> |S.Handed(After(run, hasWriter, stats, events).out)| == LenOf(run))
  }

  /** Whatever way `send` and the handler are left, whatever callbacks follow: a handler that called
      `send` gets exactly one completion if it gave a callback, and one that did not gets none. An
      account that was opened is closed once, and success means that every byte was handed over. */
  lemma TaskCompletesOnce(run: HandlerRun, hasWriter: bool, stats: S.Stats, events: seq<S.Poll>)
    ensures !CallsSend(run) ==>
              Reported(run, hasWriter, stats, events) == [] && FinalStats(run, hasWriter, stats, events) == stats
    ensures CallsSend(run) ==> exists success :: ReportsOnce(run, hasWriter, stats, events, success)
  {
    if Transfers(run, hasWriter, stats) {
      TransferCloses(run, hasWriter, stats, events);
      var x0 := S.Fresh(run.sends.value.0, stats, []).(out := [S.Headers]);
      var z := S.Destroy(After(run, hasWriter, stats, events));
      assert [] + z.completions == z.completions;
      var success :|
        && z.completions == (if x0.hasCallback then [success] else [])
        && z.stats == S.RecordEnd(x0.stats, success)
        && (success && x0.len > 0 ==> |S.Handed(z.out)| == x0.len);
      assert ReportsOnce(run, hasWriter, stats, events, success);
    } else if CallsSend(run) {
      assert ReportsOnce(run, hasWriter, stats, events, false);
    }
  }

  // ---- Who ends the response ----------------------------------------------------------------

  ghost predicate HasEnd(out: seq<S.WriterEvent>) { exists i :: 0 <= i < |out| && out[i].End? }

  /** What `WriteBody` answered to the pumps that were under way when the last byte was handed over, the
      innermost first; absent if it was not. */
  function LastWrites(x: S.Xfer, p: S.Poll): Option<seq<int>>
    decreases p, 0
  {
    if x.finished || !p.connected || !p.drained then None
    else
      var got := S.ReadCount(x, S.Min(x.remaining, S.CHUNK_SIZE), p.available);
      if got <= 0 then None
      else if S.HandOver(x, got).remaining <= 0 then Some([p.reply])
      else
        match LastWritesOf(S.HandOver(x, got), p.during)
        case None => None
        case Some(replies) => Some(replies + [p.reply])
  }

  function LastWritesOf(x: S.Xfer, ps: seq<S.Poll>): Option<seq<int>>
    decreases ps
  {
    if ps == [] then None
    else
      var front := LastWritesOf(x, ps[..|ps| - 1]);
      if front.Some? then front
      else if S.Callbacks(x, ps[..|ps| - 1]).onwrite then
        LastWrites(S.Callbacks(x, ps[..|ps| - 1]), ps[|ps| - 1])
      else None
  }

  /** The last byte was handed over and one of those writes was accepted. */
  ghost predicate SomeAccepted(replies: Option<seq<int>>)
  {
    replies.Some? && exists i :: 0 <= i < |replies.value| && replies.value[i] >= 0
  }

  lemma EndOrNot(out: seq<S.WriterEvent>, e: S.WriterEvent)
    ensures HasEnd(out + [e]) <==> HasEnd(out) || e.End?
  {
    var o := out + [e];
    if HasEnd(out) {
      var i :| 0 <= i < |out| && out[i].End?;
      assert o[i].End?;
    }
    assert o[|out|] == e;
  }

  lemma AcceptedOrNot(replies: seq<int>, reply: int)
    ensures SomeAccepted(Some(replies + [reply])) <==> SomeAccepted(Some(replies)) || reply >= 0
  {
    var all := replies + [reply];
    if SomeAccepted(Some(replies)) {
      var i :| 0 <= i < |replies| && replies[i] >= 0;
      assert all[i] >= 0;
    }
    assert all[|replies|] == reply;
  }

  ghost predicate EndsExactly(x: S.Xfer, y: S.Xfer, replies: Option<seq<int>>)
  {
    && (HasEnd(y.out) <==> SomeAccepted(replies))
    && (y.remaining <= 0 <==> replies.Some?)
  }

  lemma {:induction false} PumpEndsIff(x: S.Xfer, p: S.Poll)
    requires S.XferInv(x) && x.onwrite && x.len > 0 && !HasEnd(x.out)
    ensures EndsExactly(x, S.Pump(x, p), LastWrites(x, p))
    decreases p, 0
  {
    if p.connected && p.drained {
      var got := S.ReadCount(x, S.Min(x.remaining, S.CHUNK_SIZE), p.available);
      if got > 0 {
        HandOverKeepsInv(x, got);
        var h := S.HandOver(x, got);
        EndOrNot(x.out, h.out[|x.out|]);
        if h.remaining <= 0 {
          NoCallbackNoChange(h, p.during);
          EndOrNot(h.out, S.End);
          AcceptedOrNot([], p.reply);
          assert [] + [p.reply] == [p.reply];
        } else {
          CallbacksEndIff(h, p.during);
          OuterEnds(x, h, S.Callbacks(h, p.during), p.reply, LastWritesOf(h, p.during));
        }
      }
    }
  }

  /** What the pump does after its `WriteBody` has returned. */
  lemma OuterEnds(x: S.Xfer, h: S.Xfer, y: S.Xfer, reply: int, inner: Option<seq<int>>)
    requires EndsExactly(h, y, inner)
    ensures EndsExactly(x, AfterWrite(y, reply), if inner.None? then None else Some(inner.value + [reply]))
  {
    EndOrNot(y.out, S.End);
    if inner.Some? { AcceptedOrNot(inner.value, reply); }
  }

  lemma {:induction false} CallbacksEndIff(x: S.Xfer, ps: seq<S.Poll>)
    requires S.XferInv(x) && x.len > 0 && x.remaining > 0 && !HasEnd(x.out)
    ensures EndsExactly(x, S.Callbacks(x, ps), LastWritesOf(x, ps))
    decreases ps
  {
    if ps != [] {
      var front := ps[..|ps| - 1];
      CallbacksEndIff(x, front);
      CallbacksKeepInv(x, front);
      var f := S.Callbacks(x, front);
      if LastWritesOf(x, front).None? && f.onwrite {
        PumpEndsIff(f, ps[|ps| - 1]);
      }
    }
  }

  lemma ThenNothing(x: S.Xfer, ps: seq<S.Poll>)
    requires S.XferInv(x) && x.len > 0 && x.remaining <= 0
    ensures S.Callbacks(x, ps) == x
  {
    NoCallbackNoChange(x, ps);
  }

  lemma {:induction false} EndsStay(x: S.Xfer, ps: seq<S.Poll>)
    requires HasEnd(x.out)
    ensures HasEnd(S.Callbacks(x, ps).out)
    decreases ps
  {
    CallbacksContinue(x, ps);
    var i :| 0 <= i < |x.out| && x.out[i].End?;
    assert S.Callbacks(x, ps).out[i].End?;
  }

  /** The writes under way at the last byte, over the headers' callbacks and then later ones. */
  function LastWritesAfter(x0: S.Xfer, onHeaders: seq<S.Poll>, events: seq<S.Poll>): Option<seq<int>>
  {
    var first := LastWritesOf(x0, onHeaders);
    if first.Some? then first else LastWritesOf(S.Callbacks(x0, onHeaders), events)
  }

  lemma TransferEndsIff(x0: S.Xfer, onHeaders: seq<S.Poll>, events: seq<S.Poll>)
    requires S.XferInv(x0) && x0.len > 0 && x0.remaining > 0 && !HasEnd(x0.out)
    ensures HasEnd(S.Callbacks(S.Callbacks(x0, onHeaders), events).out)
      <==> SomeAccepted(LastWritesAfter(x0, onHeaders, events))
  {
    CallbacksEndIff(x0, onHeaders);
    CallbacksKeepInv(x0, onHeaders);
    var h := S.Callbacks(x0, onHeaders);
    if h.remaining <= 0 {
      ThenNothing(h, events);
    } else {
      CallbacksEndIff(h, events);
    }
  }

  /** Who ends the response of a non-empty transfer: the dispatcher, exactly if an exception left the
      handler; otherwise a pump, exactly if the last byte was handed over and one of the pumps then
      under way, nested ones included, had its write accepted. If neither, nobody has. */
  lemma ResponseEndsIff(run: HandlerRun, hasWriter: bool, stats: S.Stats, events: seq<S.Poll>)
    requires Transfers(run, hasWriter, stats) && LenOf(run) > 0
    ensures var ps, env := run.sends.value.0, EnvOf(run, hasWriter);
      HasEnd(After(run, hasWriter, stats, events).out)
      <==>
      !run.raise.Never?
      || SomeAccepted(LastWritesAfter(S.Fresh(ps, stats, []).(out := [S.Headers]), env.onHeaders, events))
  {
    var ps, env := run.sends.value.0, EnvOf(run, hasWriter);
    ChainOpens(run, hasWriter, stats);
    if run.raise.Never? {
      assert [] + [S.Headers] == [S.Headers];
      FreshInv(ps, stats, []);
      TransferEndsIff(S.Fresh(ps, stats, []).(out := [S.Headers]), env.onHeaders, events);
    } else {
      var x := RunChain(run, hasWriter, stats).x.value;
      EndOrNot(x.out, S.End);
      EndsStay(x.(out := x.out + [S.End]), events);
    }
  }

  lemma {:induction false} NegativeWritesNothing(x: S.Xfer, ps: seq<S.Poll>)
    requires x.remaining < 0
    ensures var y := S.Callbacks(x, ps); y.out == x.out && y.remaining == x.remaining
    decreases |ps|
  {
    if ps != [] { NegativeWritesNothing(x, ps[..|ps| - 1]); }
  }

  /** For every task, with or without a transfer, whatever way its handler is left. The response is handed
      over exactly if the handler returned, having started a transfer of something. If it was not, the
      dispatcher ends it, behind everything written before, exactly if there is a writer; without one
      nothing is written. If it was, the task leaves an `End` behind exactly if a callback fired inside
      the headers already handed over the last byte and had its write accepted. */
  lemma TaskEndsIff(run: HandlerRun, hasWriter: bool, stats: S.Stats)
    ensures var r := RunTask(run, hasWriter, stats);
      && (r.handoff <==> run.raise.Never? && Transfers(run, hasWriter, stats) && LenOf(run) != 0)
      && (!r.handoff ==> (HasEnd(r.out) <==> hasWriter) && (!hasWriter ==> r.out == []))
      && (!r.handoff && hasWriter ==> r.out[|r.out| - 1].End? && r.out[..|r.out| - 1] == Written(run, hasWriter, stats))
      && (r.handoff && LenOf(run) < 0 ==> !HasEnd(r.out))
      && (r.handoff && LenOf(run) > 0 ==>
            (HasEnd(r.out) <==>
             SomeAccepted(LastWritesOf(S.Fresh(run.sends.value.0, stats, []).(out := [S.Headers]),
                                       run.sends.value.1.onHeaders))))
  {
    var r := RunTask(run, hasWriter, stats);
    if Transfers(run, hasWriter, stats) && LenOf(run) != 0 {
      ChainOpens(run, hasWriter, stats);
      if r.handoff && LenOf(run) > 0 {
        HeadersEndIff(run.sends.value.0, EnvOf(run, hasWriter), stats);
      } else if r.handoff {
        NegativeHeadersEndNothing(run.sends.value.0, EnvOf(run, hasWriter), stats);
      }
    }
    if !r.handoff { EndOrNot(Written(run, hasWriter, stats), S.End); }
  }

  /** What the writer has been given when the handler is left. */
  function Written(run: HandlerRun, hasWriter: bool, stats: S.Stats): seq<S.WriterEvent>
  {
    var c := RunChain(run, hasWriter, stats);
    if c.x.Some? then c.x.value.out else []
  }

  lemma NoEndYet()
    ensures !HasEnd([S.Headers])
  {
  }

  lemma HeadersEndIff(ps: S.Params, env: S.SendEnv, stats: S.Stats)
    requires S.SendLen(ps) > 0
    ensures var x0 := S.Fresh(ps, stats, []).(out := [S.Headers]);
      HasEnd(Opened(ps, env, stats).out) <==> SomeAccepted(LastWritesOf(x0, env.onHeaders))
  {
    FreshStands(ps, stats);
    var x0 := S.Fresh(ps, stats, []).(out := [S.Headers]);
    CallbacksEndIff(x0, env.onHeaders);
    EndsMeans(x0, S.Callbacks(x0, env.onHeaders), LastWritesOf(x0, env.onHeaders));
  }

  lemma EndsMeans(x: S.Xfer, y: S.Xfer, replies: Option<seq<int>>)
    requires EndsExactly(x, y, replies)
    ensures HasEnd(y.out) <==> SomeAccepted(replies)
  {
  }

  lemma FreshStands(ps: S.Params, stats: S.Stats)
    requires S.SendLen(ps) > 0
    ensures var x0 := S.Fresh(ps, stats, []).(out := [S.Headers]);
      S.XferInv(x0) && x0.len > 0 && x0.remaining > 0 && !HasEnd(x0.out)
  {
    assert [] + [S.Headers] == [S.Headers];
    FreshInv(ps, stats, []);
    NoEndYet();
  }

  lemma NegativeHeadersEndNothing(ps: S.Params, env: S.SendEnv, stats: S.Stats)
    requires S.SendLen(ps) < 0
    ensures !HasEnd(Opened(ps, env, stats).out)
  {
    var x0 := S.Fresh(ps, stats, []).(out := [S.Headers]);
    NoEndYet();
    NegativeWritesNothing(x0, env.onHeaders);
  }

  /** An asynchronous handler that answers without a transfer: its response is ended, once. */
  lemma OrdinaryResponseIsEnded(stats: S.Stats)
    ensures RunTask(HandlerRun(None, Never, false), true, stats).out == [S.End]
  {
    assert [] + [S.End] == [S.End];
  }

  lemma {:induction false} CallbacksConcat(x: S.Xfer, ps: seq<S.Poll>, qs: seq<S.Poll>)
    ensures S.Callbacks(x, ps + qs) == S.Callbacks(S.Callbacks(x, ps), qs)
    decreases |qs|
  {
    if qs == [] {
      assert ps + qs == ps;
    } else {
      var n := |qs| - 1;
      assert (ps + qs)[..|ps| + n] == ps + qs[..n];
      CallbacksConcat(x, ps, qs[..n]);
    }
  }

  /** A handed-off transfer that has failed before its last byte is never ended by anybody, whatever
      callbacks still fire. */
  lemma FailedIsNeverEnded(run: HandlerRun, hasWriter: bool, stats: S.Stats, events: seq<S.Poll>, more: seq<S.Poll>)
    requires Transfers(run, hasWriter, stats) && LenOf(run) > 0 && run.raise.Never?
    requires var y := After(run, hasWriter, stats, events); y.finished && |S.Handed(y.out)| < LenOf(run)
    ensures After(run, hasWriter, stats, events + more) == After(run, hasWriter, stats, events)
    ensures !HasEnd(After(run, hasWriter, stats, events + more).out)
  {
    ChainOpens(run, hasWriter, stats);
    var x := RunTask(run, hasWriter, stats).x.value;
    CallbacksKeepInv(x, events);
    var y := S.Callbacks(x, events);
    CallbacksConcat(x, events, more);
    NoCallbackNoChange(y, more);
    if HasEnd(y.out) {
      var i :| 0 <= i < |y.out| && y.out[i].End?;
      HandedPrefix(y.out, i);
    }
  }

  lemma {:induction false} HandedPrefix(out: seq<S.WriterEvent>, i: nat)
    requires i <= |out|
    ensures |S.Handed(out[..i])| <= |S.Handed(out)|
    decreases |out|
  {
    if i < |out| {
      HandedPrefix(out[..|out| - 1], i);
      assert out[..|out| - 1][..i] == out[..i];
    } else {
      assert out[..i] == out;
    }
  }

  /** One read that delivers nothing, with the writer connected and drained: the transfer has failed and
      reported so, and its response is never ended. */
  lemma FailedReadIsNeverEnded(more: seq<S.Poll>)
    ensures var ps, env := S.Params([1], 1, -1, -1, true), S.SendEnv(true, true, true, [], []);
      var run := HandlerRun(Some((ps, env)), Never, false);
      var events := [S.Poll(true, true, 0, 0, [])] + more;
      && Transfers(run, true, S.NoStats)
      && After(run, true, S.NoStats, events).completions == [false]
      && !HasEnd(After(run, true, S.NoStats, events).out)
  {
    var ps, env := S.Params([1], 1, -1, -1, true), S.SendEnv(true, true, true, [], []);
    var run := HandlerRun(Some((ps, env)), Never, false);
    var p := S.Poll(true, true, 0, 0, []);
    ChainOpens(run, true, S.NoStats);
    var x := RunTask(run, true, S.NoStats).x.value;
    assert x == S.Fresh(ps, S.NoStats, []).(out := [S.Headers]);
    assert S.Handed([S.Headers]) == [];
    OneFailedRead(x, p);
    FailedIsNeverEnded(run, true, S.NoStats, [p], more);
  }

  lemma OneFailedRead(x: S.Xfer, p: S.Poll)
    requires x.onwrite && !x.finished && p.connected && p.drained && p.available == 0
    ensures S.Callbacks(x, [p]) == S.Finish(x, false)
  {
    assert [p][..0] == [];
    assert S.Callbacks(x, [p][..0]) == x;
  }

  // ---- Task accounting ----------------------------------------------------------------------

  datatype Status = Waiting | Done | Escaped

  /** A request arrives (+1); its task, if the dispatcher ever runs it, contributes its own delta. */
  datatype TrackerEvent = Arrive | Execute(k: nat, run: HandlerRun, hasWriter: bool, stats: S.Stats)

  /** The dispatcher runs a task at most once. */
  datatype Tracker = Tracker(value: int, tasks: seq<Status>)

  function Track(t: Tracker, e: TrackerEvent): Tracker
  {
    match e
    case Arrive => Tracker(t.value + 1, t.tasks + [Waiting])
    case Execute(k, run, hasWriter, stats) =>
      if k < |t.tasks| && t.tasks[k].Waiting? then
        var r := RunTask(run, hasWriter, stats);
        Tracker(t.value + r.delta, t.tasks[k := if r.escaped then Escaped else Done])
      else t
  }

  function TrackAll(events: seq<TrackerEvent>): Tracker
  {
    if events == [] then Tracker(0, []) else Track(TrackAll(events[..|events| - 1]), events[|events| - 1])
  }

  /** Requests whose task has not run, or was left by an exception out of `End`. */
  function Unaccounted(tasks: seq<Status>): nat
  {
    if tasks == [] then 0
    else Unaccounted(tasks[..|tasks| - 1]) + if tasks[|tasks| - 1].Done? then 0 else 1
  }

  lemma {:induction false} UnaccountedUpdate(tasks: seq<Status>, k: nat, s: Status)
    requires k < |tasks| && tasks[k].Waiting?
    ensures Unaccounted(tasks[k := s]) == Unaccounted(tasks) - if s.Done? then 1 else 0
    decreases |tasks|
  {
    var n := |tasks| - 1;
    if k < n {
      UnaccountedUpdate(tasks[..n], k, s);
      assert tasks[k := s][..n] == tasks[..n][k := s];
    } else {
      assert tasks[k := s][..n] == tasks[..n];
    }
  }

  /** The tracker's sum is always the number of requests whose task has not run, plus those whose task
      was left by an exception out of the dispatcher's own `End`, which skips the -1. */
  lemma {:induction false} TrackerCountsOutstanding(events: seq<TrackerEvent>)
    ensures TrackAll(events).value == Unaccounted(TrackAll(events).tasks)
    decreases |events|
  {
    if events != [] {
      var t := TrackAll(events[..|events| - 1]);
      TrackerCountsOutstanding(events[..|events| - 1]);
      match events[|events| - 1]
      case Arrive => assert (t.tasks + [Waiting])[..|t.tasks|] == t.tasks;
      case Execute(k, run, hasWriter, stats) =>
        if k < |t.tasks| && t.tasks[k].Waiting? {
          var r := RunTask(run, hasWriter, stats);
          UnaccountedUpdate(t.tasks, k, if r.escaped then Escaped else Done);
        }
    }
  }

  lemma {:induction false} NoneUnaccounted(tasks: seq<Status>)
    ensures Unaccounted(tasks) == 0 <==> forall k :: 0 <= k < |tasks| ==> tasks[k].Done?
    decreases |tasks|
  {
    if tasks != [] {
      var front := tasks[..|tasks| - 1];
      NoneUnaccounted(front);
      assert forall k :: 0 <= k < |front| ==> front[k] == tasks[k];
    }
  }

  /** The tracker is back at zero exactly when every request's task has run and none was left by an
      exception out of `End`; exceptions out of the handler do not matter. */
  lemma TrackerAtRestIff(events: seq<TrackerEvent>)
    ensures TrackAll(events).value == 0
      <==> forall k :: 0 <= k < |TrackAll(events).tasks| ==> TrackAll(events).tasks[k].Done?
  {
    TrackerCountsOutstanding(events);
    NoneUnaccounted(TrackAll(events).tasks);
  }

  /** A task skips the tracker exactly if it calls `End` itself and that call raises: it does not call
      it after a handoff, nor without a writer. */
  lemma SkipsTrackerIff(run: HandlerRun, hasWriter: bool, stats: S.Stats)
    ensures RunTask(run, hasWriter, stats).escaped
      <==>
      && run.endRaises && hasWriter
      && !(run.raise.Never? && Transfers(run, hasWriter, stats) && LenOf(run) != 0)
  {
    if Transfers(run, hasWriter, stats) && LenOf(run) != 0 { ChainOpens(run, hasWriter, stats); }
  }

  /** A task without a transfer whose own `End` throws: it has run, and the tracker stays at one. */
  lemma ThrowingEndSkipsTracker()
    ensures var run := HandlerRun(None, Never, true);
      && RunTask(run, true, S.NoStats).escaped
      && TrackAll([Arrive, Execute(0, run, true, S.NoStats)]) == Tracker(1, [Escaped])
  {
    var e := Execute(0, HandlerRun(None, Never, true), true, S.NoStats);
    assert [Arrive, e][..1] == [Arrive] && [Arrive][..0] == [];
    assert TrackAll([]) == Tracker(0, []);
    assert TrackAll([Arrive]) == Tracker(1, [Waiting]);
  }

  // ---- The task as a method -----------------------------------------------------------------

  class TaskTracker {
    var value: int

    method Add(delta: int)
      modifies this
      ensures value == old(value) + delta
    {
      value := value + delta;
    }
  }

  /** The chain on a fresh writer; `raised` is an exception on its way to the `catch`. */
  method ExecuteChain(run: HandlerRun, hasWriter: bool, writer: O.Writer, stats: O.TransferStats)
    returns (state: O.TransferState?, marked: bool, raised: bool, aside: seq<bool>)
    requires writer.out == []
    modifies writer, stats
    ensures var c := RunChain(run, hasWriter, old(stats.View()));
      && marked == c.marked && raised == c.raised && stats.View() == c.stats && aside == c.aside
      && (state != null <==> c.x.Some?)
      && (state != null ==> state.writer == writer && state.stats == stats && state.View() == c.x.value)
      && (state == null ==> writer.out == [])
  {
    if run.sends.None? || run.raise.BeforeSend? { return null, false, !run.raise.Never?, []; }
    var (ps, sendEnv) := run.sends.value;
    var env := sendEnv.(hasWriter := hasWriter);
    if run.raise.Preparing? || run.raise.InHeaders? {
      state, aside := ExecuteRaising(ps, env, run.raise.Preparing?, writer, stats);
      return state, false, true, aside;
    }
    state, marked, aside := O.Send(ps, env, writer, stats);
    raised := !run.raise.Never?;
  }

  /** `send` left by an exception: while it prepares the headers, which destroys the state object, or
      while it writes them, when the writer's callback already keeps it alive. */
  method ExecuteRaising(ps: S.Params, env: S.SendEnv, preparing: bool, writer: O.Writer, stats: O.TransferStats)
    returns (state: O.TransferState?, aside: seq<bool>)
    requires writer.out == []
    modifies writer, stats
    ensures S.Refuses(ps, env) ==> state == null && stats.View() == old(stats.View())
    ensures S.Refuses(ps, env) || preparing ==> aside == Failed(ps)
    ensures !S.Refuses(ps, env) && !preparing ==> aside == []
    ensures !S.Refuses(ps, env) && preparing ==>
              state == null
              && stats.View() == S.RecordEnd(S.RecordStart(old(stats.View()), S.SendLen(ps)), false)
    ensures !S.Refuses(ps, env) && !preparing ==>
              && state != null && state.writer == writer && state.stats == stats
              && state.View() == Opened(ps, env, old(stats.View()))
    ensures state == null ==> writer.out == []
  {
    if S.Refuses(ps, env) { return null, if ps.hasCallback then [false] else []; }
    var s := new O.TransferState(ps, writer, stats);
    stats.RecordStart(S.SendLen(ps));
    if preparing {
      s.Destroy();
      return null, s.completions;
    }
    writer.onwrite := true;
    writer.out := [S.Headers];
    assert s.View() == S.Fresh(ps, old(stats.View()), []).(out := [S.Headers]);
    s.Fire(env.onHeaders);
    return s, [];
  }

  /** The asynchronous task on a fresh writer: an exception out of the chain is swallowed; one out of
      `End` leaves the task before the tracker is told. */
  method ExecuteTask(run: HandlerRun, hasWriter: bool, writer: O.Writer, stats: O.TransferStats,
                     tracker: TaskTracker)
    returns (state: O.TransferState?, aside: seq<bool>, escaped: bool)
    requires writer.out == []
    modifies writer, stats, tracker
    ensures var r := RunTask(run, hasWriter, old(stats.View()));
      && tracker.value == old(tracker.value) + r.delta && escaped == r.escaped
      && writer.out == r.out && stats.View() == r.stats && aside == r.aside
      && (state != null <==> r.x.Some?)
      && (state != null ==> state.writer == writer && state.stats == stats && state.View() == r.x.value)
  {
    var streamingHandoff := false;
    var marked, raised;
    state, marked, raised, aside := ExecuteChain(run, hasWriter, writer, stats);
    if !raised { streamingHandoff := marked; }
    if !streamingHandoff && hasWriter {
      writer.out := writer.out + [S.End];
      if run.endRaises { return state, aside, true; }
    }
    tracker.Add(-1);
    escaped := false;
  }
}

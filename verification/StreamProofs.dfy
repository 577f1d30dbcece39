/** What holds of a streamed transfer under every pattern of callbacks and re-entry. */
module StreamProofs {
  import opened Bytes
  import opened Stream

  // ---- The output log -----------------------------------------------------------------------

  lemma HandedSnoc(out: seq<WriterEvent>, e: WriterEvent)
    ensures Handed(out + [e]) == Handed(out) + (if e.Body? then e.bytes else [])
  {
    assert (out + [e])[..|out|] == out;
  }

  lemma EndsAfterSnoc(out: seq<WriterEvent>, e: WriterEvent, len: int)
    requires EndsAfter(out, len) && (e.End? ==> |Handed(out)| == len)
    ensures EndsAfter(out + [e], len)
  {
    var o := out + [e];
    forall i | 0 <= i < |o| && o[i].End? ensures |Handed(o[..i])| == len {
      if i < |out| { assert o[..i] == out[..i] && o[i] == out[i]; } else { assert o[..i] == out; }
    }
  }

  lemma PrefixGrows(bytes: seq<Byte>, file: seq<Byte>, start: nat, got: nat)
    requires PrefixFrom(bytes, file, start) && start + |bytes| + got <= |file|
    ensures PrefixFrom(bytes + file[start + |bytes|..start + |bytes| + got], file, start)
  {
    var pos := start + |bytes|;
    assert file[start..pos] + file[pos..pos + got] == file[start..pos + got];
  }

  lemma HandOverKeepsInv(x: Xfer, got: nat)
    requires XferInv(x) && x.onwrite && 0 < got <= x.remaining && x.pos + got <= |x.file|
    ensures XferInv(HandOver(x, got))
  {
    var bytes, block := Handed(x.out), x.file[x.pos..x.pos + got];
    HandedAfter(x, got, block);
    PrefixGrows(bytes, x.file, x.start, got);
    assert PrefixFrom(bytes + block, x.file, x.start);
    HandOverParts(x, HandOver(x, got), got, bytes, bytes + block);
  }

  lemma HandedAfter(x: Xfer, got: nat, block: seq<Byte>)
    requires XferInv(x) && x.pos + got <= |x.file| && block == x.file[x.pos..x.pos + got]
    ensures Handed(HandOver(x, got).out) == Handed(x.out) + block
    ensures x.len > 0 ==> EndsAfter(HandOver(x, got).out, x.len)
  {
    HandedSnoc(x.out, Body(block));
    if x.len > 0 { EndsAfterSnoc(x.out, Body(block), x.len); }
  }

  lemma HandOverParts(x: Xfer, y: Xfer, got: nat, before: seq<Byte>, after: seq<Byte>)
    requires XferInv(x) && x.onwrite && 0 < got <= x.remaining && x.pos + got <= |x.file|
    requires y == HandOver(x, got) && before == Handed(x.out) && after == Handed(y.out)
    requires |after| == |before| + got && PrefixFrom(after, x.file, x.start)
    requires x.len > 0 ==> EndsAfter(y.out, x.len)
    ensures XferInv(y)
  {
  }

  lemma FinishKeepsInv(x: Xfer, success: bool)
    requires XferInv(x)
    ensures XferInv(Finish(x, success))
  {
  }

  lemma EndKeepsInv(x: Xfer)
    requires XferInv(x) && (x.len > 0 ==> x.remaining <= 0)
    ensures XferInv(x.(out := x.out + [End]))
  {
    HandedSnoc(x.out, End);
    if x.len > 0 { EndsAfterSnoc(x.out, End, x.len); }
  }

  /** What a pump does once its `WriteBody` has returned. */
  function AfterWrite(y: Xfer, reply: int): Xfer
  {
    if reply < 0 then Finish(y, false)
    else if y.remaining <= 0 then Finish(y.(out := y.out + [End]), true)
    else y
  }

  lemma PumpWrites(x: Xfer, p: Poll, got: nat)
    requires !x.finished && p.connected && p.drained && got > 0
    requires got == ReadCount(x, Min(x.remaining, CHUNK_SIZE), p.available)
    ensures Pump(x, p) == AfterWrite(Callbacks(HandOver(x, got), p.during), p.reply)
  {
  }

  /** What a step leaves alone, and that it never resumes a finished transfer or gives bytes back. */
  ghost predicate Advances(x: Xfer, y: Xfer)
  {
    && y.file == x.file && y.start == x.start && y.len == x.len && y.hasCallback == x.hasCallback
    && y.remaining <= x.remaining
    && (x.finished ==> y.finished) && (y.onwrite ==> x.onwrite)
  }

  /** Re-entry keeps the invariant: what is handed over is always a prefix, in order and without
      repeats, of the file from the start position; handed over plus remaining is the length; and
      no `End` reaches the writer early. */
  lemma {:induction false} PumpKeepsInv(x: Xfer, p: Poll)
    requires XferInv(x) && x.onwrite
    ensures XferInv(Pump(x, p)) && Advances(x, Pump(x, p))
    decreases p, 0
  {
    if !p.connected {
      FinishKeepsInv(x, false);
    } else if p.drained {
      var got := ReadCount(x, Min(x.remaining, CHUNK_SIZE), p.available);
      if got <= 0 {
        FinishKeepsInv(x, false);
      } else {
        HandOverKeepsInv(x, got);
        CallbacksKeepInv(HandOver(x, got), p.during);
        var y := Callbacks(HandOver(x, got), p.during);
        if p.reply < 0 {
          FinishKeepsInv(y, false);
        } else if y.remaining <= 0 {
          EndKeepsInv(y);
          FinishKeepsInv(y.(out := y.out + [End]), true);
        }
      }
    }
  }

  lemma {:induction false} CallbacksKeepInv(x: Xfer, ps: seq<Poll>)
    requires XferInv(x)
    ensures XferInv(Callbacks(x, ps)) && Advances(x, Callbacks(x, ps))
    decreases ps
  {
    if ps != [] {
      CallbacksKeepInv(x, ps[..|ps| - 1]);
      var front := Callbacks(x, ps[..|ps| - 1]);
      if front.onwrite { PumpKeepsInv(front, ps[|ps| - 1]); }
    }
  }

  // ---- Completion and counters --------------------------------------------------------------

  /** Every call of `pump`, nested calls included, completes the transfer at most once. After an
      outer block's nested pump has finished the transfer, the outer call only repeats `End`. */
  lemma {:induction false} PumpCompletesOnce(x: Xfer, p: Poll)
    requires XferInv(x) && x.onwrite
    ensures CompletesOnce(x, Pump(x, p))
    decreases p, 0
  {
    if p.connected && p.drained {
      var got := ReadCount(x, Min(x.remaining, CHUNK_SIZE), p.available);
      if got > 0 {
        HandOverKeepsInv(x, got);
        CallbacksCompleteOnce(HandOver(x, got), p.during);
        CallbacksKeepInv(HandOver(x, got), p.during);
        var y := Callbacks(HandOver(x, got), p.during);
        HandedSnoc(y.out, End);
        OuterPart(x, HandOver(x, got), y, p.reply);
      }
    }
  }

  /** A step either leaves completion and counters alone, or finishes the transfer: then it reports
      once and closes the transfer's account once. A finished transfer can only see `End` again. */
  ghost predicate CompletesOnce(x: Xfer, y: Xfer)
  {
    && (y.finished == x.finished ==> y.completions == x.completions && y.stats == x.stats)
    && (y.finished && !x.finished ==> Closed(x, y))
    && (x.finished ==> y.finished)
  }

  /** `y` is `x` completed: one report, one account closed, and success only with all bytes handed. */
  ghost predicate Closed(x: Xfer, y: Xfer)
  {
    exists success ::
      && y.stats == RecordEnd(x.stats, success)
      && y.completions == x.completions + (if x.hasCallback then [success] else [])
      && (success && x.len > 0 ==> |Handed(y.out)| == x.len)
  }

  lemma OuterPart(x: Xfer, h: Xfer, y: Xfer, reply: int)
    requires !x.finished && !h.finished && h.completions == x.completions && h.stats == x.stats
    requires h.hasCallback == x.hasCallback && h.len == x.len && y.hasCallback == x.hasCallback
    requires y.len == x.len && XferInv(y) && CompletesOnce(h, y)
    requires |Handed(y.out + [End])| == |Handed(y.out)|
    ensures CompletesOnce(x, Finish(y, false))
    ensures y.remaining <= 0 ==> CompletesOnce(x, Finish(y.(out := y.out + [End]), true))
    ensures CompletesOnce(x, y)
  {
    if y.finished {
      assert Closed(h, y);
      var success :| && y.stats == RecordEnd(h.stats, success)
                     && y.completions == h.completions + (if h.hasCallback then [success] else [])
                     && (success && h.len > 0 ==> |Handed(y.out)| == h.len);
      assert Closed(x, y);
      assert Closed(x, y.(out := y.out + [End]));
    } else {
      var f, e := Finish(y, false), Finish(y.(out := y.out + [End]), true);
      assert f.stats == RecordEnd(x.stats, false) && e.stats == RecordEnd(x.stats, true);
      assert Closed(x, f);
      assert y.remaining <= 0 ==> Closed(x, e);
    }
  }

  lemma {:induction false} CallbacksCompleteOnce(x: Xfer, ps: seq<Poll>)
    requires XferInv(x)
    ensures CompletesOnce(x, Callbacks(x, ps))
    decreases ps
  {
    if ps != [] {
      var front := Callbacks(x, ps[..|ps| - 1]);
      CallbacksCompleteOnce(x, ps[..|ps| - 1]);
      CallbacksKeepInv(x, ps[..|ps| - 1]);
      if front.onwrite {
        PumpCompletesOnce(front, ps[|ps| - 1]);
      }
    }
  }

  // ---- A whole life -------------------------------------------------------------------------

  /** `send`, then any number of writer callbacks, then destruction of the state object. */
  function Life(ps: Params, env: SendEnv, stats: Stats, out: seq<WriterEvent>, events: seq<Poll>): Xfer
    requires !Refuses(ps, env)
  {
    Destroy(Callbacks(Send(ps, env, stats, out).x, events))
  }

  /** No bytes and no `End` of this transfer have reached the writer yet. */
  ghost predicate CleanOutput(out: seq<WriterEvent>)
  {
    Handed(out) == [] && forall i :: 0 <= i < |out| ==> !out[i].End?
  }

  lemma FreshInv(ps: Params, stats: Stats, out: seq<WriterEvent>)
    requires CleanOutput(out)
    ensures var x := Fresh(ps, stats, out); XferInv(x.(out := x.out + [Headers]))
  {
    HandedSnoc(out, Headers);
  }

  lemma HeadersPhase(ps: Params, env: SendEnv, stats: Stats, out: seq<WriterEvent>)
    requires CleanOutput(out)
    ensures var x := Fresh(ps, stats, out).(out := out + [Headers]);
      var h := Callbacks(x, env.onHeaders);
      && XferInv(h) && Advances(x, h) && CompletesOnce(x, h)
  {
    FreshInv(ps, stats, out);
    var x := Fresh(ps, stats, out).(out := out + [Headers]);
    CallbacksKeepInv(x, env.onHeaders);
    CallbacksCompleteOnce(x, env.onHeaders);
  }

  /** Completing in two stages completes once. */
  lemma CompletesOnceTrans(x: Xfer, y: Xfer, z: Xfer)
    requires CompletesOnce(x, y) && CompletesOnce(y, z) && !x.finished
    requires Advances(x, y) && Advances(y, z) && XferInv(y) && XferInv(z)
    ensures CompletesOnce(x, z)
  {
    if y.finished {
      assert Closed(x, y);
      var success :| && y.stats == RecordEnd(x.stats, success)
                     && y.completions == x.completions + (if x.hasCallback then [success] else [])
                     && (success && x.len > 0 ==> |Handed(y.out)| == x.len);
      assert z.stats == RecordEnd(x.stats, success);
      assert Closed(x, z);
    } else if z.finished {
      assert Closed(y, z);
      var success :| && z.stats == RecordEnd(y.stats, success)
                     && z.completions == y.completions + (if y.hasCallback then [success] else [])
                     && (success && y.len > 0 ==> |Handed(z.out)| == y.len);
      assert Closed(x, z);
    }
  }

  /** What `send` leaves behind for a non-empty request. */
  lemma SentInv(ps: Params, env: SendEnv, stats: Stats, out: seq<WriterEvent>)
    requires CleanOutput(out) && !Refuses(ps, env) && SendLen(ps) != 0
    ensures var s := Send(ps, env, stats, out);
      && s.Started? && s.handoff && XferInv(s.x) && s.x.len == SendLen(ps)
      && CompletesOnce(Fresh(ps, stats, out).(out := out + [Headers]), s.x)
      && Advances(Fresh(ps, stats, out).(out := out + [Headers]), s.x)
  {
    HeadersPhase(ps, env, stats, out);
  }

  /** A whole life, whatever the writer, the disk and the callbacks do: exactly one completion if a
      callback was given; one account opened and one closed; and for a positive length, success is
      reported only when exactly the requested bytes were handed over, in order. */
  lemma LifeCompletesOnce(ps: Params, env: SendEnv, stats: Stats, out: seq<WriterEvent>, events: seq<Poll>)
    requires CleanOutput(out) && !Refuses(ps, env) && SendLen(ps) > 0
    ensures var x := Life(ps, env, stats, out, events);
      && (exists success ::
            && x.completions == (if ps.hasCallback then [success] else [])
            && x.stats == RecordEnd(RecordStart(stats, SendLen(ps)), success)
            && (success ==>
                  && SendStart(ps) + SendLen(ps) <= |ps.file|
                  && Handed(x.out) == ps.file[SendStart(ps)..SendStart(ps) + SendLen(ps)]))
      && PrefixFrom(Handed(x.out), ps.file, SendStart(ps)) && |Handed(x.out)| <= SendLen(ps)
      && EndsAfter(x.out, SendLen(ps))
  {
    SentInv(ps, env, stats, out);
    var x0 := Fresh(ps, stats, out).(out := out + [Headers]);
    var s := Send(ps, env, stats, out).x;
    CallbacksKeepInv(s, events);
    CallbacksCompleteOnce(s, events);
    var y := Callbacks(s, events);
    CompletesOnceTrans(x0, s, y);
    if y.finished {
      assert Closed(x0, y);
    } else {
      var z := Destroy(y);
      assert z.completions == (if ps.hasCallback then [false] else []);
      assert z.stats == RecordEnd(x0.stats, false);
    }
  }

  // ---- Empty requests -----------------------------------------------------------------------

  /** A callback that does not disturb an empty transfer: the writer is connected and busy. */
  predicate Harmless(p: Poll) { p.connected && !p.drained }

  ghost predicate AllHarmless(ps: seq<Poll>) { forall i :: 0 <= i < |ps| ==> Harmless(ps[i]) }

  lemma {:induction false} EmptyCallbacks(x: Xfer, ps: seq<Poll>)
    requires x.len == x.remaining == 0 && x.onwrite && !x.finished
    ensures var y := Callbacks(x, ps);
      && y == (if AllHarmless(ps) then x else Finish(x, false))
    decreases |ps|
  {
    if ps != [] {
      var front := ps[..|ps| - 1];
      EmptyCallbacks(x, front);
      var last := ps[|ps| - 1];
      if AllHarmless(front) {
        assert AllHarmless(ps) <==> Harmless(last);
      } else {
        assert !AllHarmless(ps);
      }
    }
  }

  /** An empty transfer reports success exactly when every callback fired synchronously while its
      headers and end were written found the writer connected and its buffer not yet drained. */
  lemma EmptySucceedsIff(ps: Params, env: SendEnv, stats: Stats, out: seq<WriterEvent>)
    requires !Refuses(ps, env) && SendLen(ps) == 0 && ps.hasCallback
    ensures var s := Send(ps, env, stats, out);
      && s.x.completions == [AllHarmless(env.onHeaders) && AllHarmless(env.onEnd)]
      && s.x.finished && !s.handoff && s.x.out == out + [Headers, End]
  {
    var x := Fresh(ps, stats, out).(out := out + [Headers]);
    assert out + [Headers] + [End] == out + [Headers, End];
    EmptyCallbacks(x, env.onHeaders);
    var h := Callbacks(x, env.onHeaders);
    var e := h.(out := h.out + [End]);
    if AllHarmless(env.onHeaders) {
      EmptyCallbacks(e, env.onEnd);
    } else {
      NoCallbackNoChange(e, env.onEnd);
    }
  }

  lemma {:induction false} NoCallbackNoChange(x: Xfer, ps: seq<Poll>)
    requires !x.onwrite
    ensures Callbacks(x, ps) == x
    decreases |ps|
  {
    if ps != [] { NoCallbackNoChange(x, ps[..|ps| - 1]); }
  }

  /** So an empty file can be reported as failed: one drained callback from inside `EndHeaders`. */
  lemma EmptyFileCanFail()
    ensures var ps := Params([], 0, -1, -1, true);
      var env := SendEnv(true, true, true, [Poll(true, true, 0, 0, [])], []);
      Send(ps, env, NoStats, []).x.completions == [false]
  {
    var ps := Params([], 0, -1, -1, true);
    var p := Poll(true, true, 0, 0, []);
    var env := SendEnv(true, true, true, [p], []);
    EmptySucceedsIff(ps, env, NoStats, []);
    assert !Harmless(env.onHeaders[0]);
  }

  // ---- Progress, and re-entry changes nothing -----------------------------------------------

  /** Nothing goes wrong in this poll or in any poll nested in it; the writer may be busy. */
  ghost predicate Healthy(p: Poll)
    decreases p, 0
  {
    && p.connected
    && (p.drained ==> p.available >= CHUNK_SIZE && p.reply >= 0 && AllHealthy(p.during))
  }

  ghost predicate AllHealthy(ps: seq<Poll>)
    decreases ps
  {
    ps == [] || (AllHealthy(ps[..|ps| - 1]) && Healthy(ps[|ps| - 1]))
  }

  /** How many polls of a tree, or of a list of trees, find the writer drained; a busy one does nothing,
      and nothing is nested in it. */
  function Size(p: Poll): nat
    decreases p, 0
  {
    if p.drained then 1 + SizeAll(p.during) else 0
  }

  function SizeAll(ps: seq<Poll>): nat
    decreases ps
  {
    if ps == [] then 0 else SizeAll(ps[..|ps| - 1]) + Size(ps[|ps| - 1])
  }

  function Left(r: int, polls: nat): int { if r <= polls * CHUNK_SIZE then 0 else r - polls * CHUNK_SIZE }

  /** A transfer under way, with the file long enough for the rest of the request. */
  ghost predicate UnderWay(x: Xfer)
  {
    XferInv(x) && x.len > 0 && !x.finished && x.onwrite && x.pos + x.remaining <= |x.file|
  }

  /** The state `x` reaches once `polls` healthy polls have run on a drained writer: every one of them hands over a
      block as long as bytes are left, and the transfer has succeeded exactly if none are. */
  ghost predicate AfterHealthy(x: Xfer, y: Xfer, polls: nat)
  {
    y.remaining == Left(x.remaining, polls) && Succeeding(x, y)
  }

  /** Succeeded if nothing is left, and otherwise under way. */
  ghost predicate Succeeding(x: Xfer, y: Xfer)
  {
    if y.remaining == 0 then y.finished && !y.onwrite && y.stats == RecordEnd(x.stats, true)
    else UnderWay(y) && y.stats == x.stats
  }

  /** A healthy poll of a drained writer hands over one block for itself and one for every such poll
      nested inside its `WriteBody`: synchronous re-entry moves the same bytes as the same polls in
      sequence. A poll of a busy writer leaves the transfer as it is. */
  lemma {:induction false} HealthyPump(x: Xfer, p: Poll)
    requires UnderWay(x) && Healthy(p)
    ensures AfterHealthy(x, Pump(x, p), Size(p))
    decreases p, 0
  {
    if p.drained {
      var got := ReadCount(x, Min(x.remaining, CHUNK_SIZE), p.available);
      assert got == Min(x.remaining, CHUNK_SIZE) > 0;
      HandOverKeepsInv(x, got);
      var h := HandOver(x, got);
      if h.remaining == 0 {
        NoCallbackNoChange(h, p.during);
      } else {
        HealthyCallbacks(h, p.during);
      }
      PumpKeepsInv(x, p);
      HealthyBlock(x, h, Callbacks(h, p.during), p);
    }
  }

  lemma HealthyBlock(x: Xfer, h: Xfer, y: Xfer, p: Poll)
    requires UnderWay(x) && Healthy(p) && p.drained && x.remaining > 0
    requires 0 < Min(x.remaining, CHUNK_SIZE) == ReadCount(x, Min(x.remaining, CHUNK_SIZE), p.available)
    requires h == HandOver(x, Min(x.remaining, CHUNK_SIZE)) && y == Callbacks(h, p.during)
    requires if h.remaining == 0 then y == h else AfterHealthy(h, y, SizeAll(p.during))
    requires XferInv(Pump(x, p)) && Advances(x, Pump(x, p))
    ensures AfterHealthy(x, Pump(x, p), Size(p))
  {
    LeftStep(x.remaining, SizeAll(p.during));
    assert y.remaining == Left(x.remaining, Size(p));
    AfterBlock(x, y, p, h);
  }

  lemma LeftStep(r: int, n: nat)
    requires r > 0
    ensures Left(r, 1 + n) == Left(r - Min(r, CHUNK_SIZE), n)
    ensures r <= CHUNK_SIZE ==> Left(r, 1 + n) == 0
  {
    assert (1 + n) * CHUNK_SIZE == CHUNK_SIZE + n * CHUNK_SIZE && n * CHUNK_SIZE >= 0;
  }

  lemma AfterBlock(x: Xfer, y: Xfer, p: Poll, h: Xfer)
    requires UnderWay(x) && p.connected && p.drained && p.reply >= 0 && x.remaining > 0
    requires 0 < Min(x.remaining, CHUNK_SIZE) == ReadCount(x, Min(x.remaining, CHUNK_SIZE), p.available)
    requires h == HandOver(x, Min(x.remaining, CHUNK_SIZE)) && y == Callbacks(h, p.during)
    requires if h.remaining == 0 then y == h else Succeeding(h, y)
    requires y.remaining >= 0
    ensures Pump(x, p).remaining == y.remaining && Succeeding(x, Pump(x, p))
  {
  }

  lemma {:induction false} HealthyCallbacks(x: Xfer, ps: seq<Poll>)
    requires UnderWay(x) && AllHealthy(ps)
    ensures AfterHealthy(x, Callbacks(x, ps), SizeAll(ps))
    decreases ps
  {
    if ps != [] {
      var front := ps[..|ps| - 1];
      HealthyCallbacks(x, front);
      var f := Callbacks(x, front);
      var n, m := SizeAll(front), Size(ps[|ps| - 1]);
      assert (n + m) * CHUNK_SIZE == n * CHUNK_SIZE + m * CHUNK_SIZE;
      if f.remaining > 0 {
        HealthyPump(f, ps[|ps| - 1]);
      }
    }
  }

  /** With nothing going wrong, a request that lies inside the file succeeds as soon as there have been
      enough callbacks on a drained writer, however they nest, inside the headers or later, and with
      any number of callbacks on a busy one among them; it hands over exactly its bytes. */
  lemma HealthyTransferSucceeds(ps: Params, env: SendEnv, stats: Stats, out: seq<WriterEvent>, events: seq<Poll>)
    requires CleanOutput(out) && SendLen(ps) > 0 && SendStart(ps) + SendLen(ps) <= |ps.file|
    requires !Refuses(ps, env) && AllHealthy(env.onHeaders) && AllHealthy(events)
    requires Enough(SizeAll(env.onHeaders) + SizeAll(events), SendLen(ps))
    ensures var x := Callbacks(Send(ps, env, stats, out).x, events);
      && x.finished && x.stats == RecordEnd(RecordStart(stats, SendLen(ps)), true)
      && Handed(x.out) == ps.file[SendStart(ps)..SendStart(ps) + SendLen(ps)]
  {
    HealthyWhole(ps, env, stats, out, Fresh(ps, stats, out).(out := out + [Headers]),
                 Send(ps, env, stats, out).x, events, SizeAll(env.onHeaders), SizeAll(events));
  }

  lemma HealthyWhole(ps: Params, env: SendEnv, stats: Stats, out: seq<WriterEvent>, x0: Xfer, y: Xfer,
                     events: seq<Poll>, polls: nat, more: nat)
    requires CleanOutput(out) && SendLen(ps) > 0 && SendStart(ps) + SendLen(ps) <= |ps.file|
    requires !Refuses(ps, env) && AllHealthy(env.onHeaders) && AllHealthy(events)
    requires x0 == Fresh(ps, stats, out).(out := out + [Headers]) && y == Send(ps, env, stats, out).x
    requires polls == SizeAll(env.onHeaders) && more == SizeAll(events) && Enough(polls + more, SendLen(ps))
    ensures var x := Callbacks(y, events);
      && x.finished && x.stats == RecordEnd(RecordStart(stats, SendLen(ps)), true)
      && Handed(x.out) == ps.file[SendStart(ps)..SendStart(ps) + SendLen(ps)]
  {
    HealthyStart(ps, env, stats, out, x0, y);
    HealthyFinish(ps, stats, x0, y, events, polls, more);
  }

  predicate Enough(polls: nat, len: int) { polls * CHUNK_SIZE >= len }

  lemma HealthyFinish(ps: Params, stats: Stats, x0: Xfer, y: Xfer, events: seq<Poll>, polls: nat, more: nat)
    requires UnderWay(x0) && XferInv(y) && Advances(x0, y) && AfterHealthy(x0, y, polls) && AllHealthy(events)
    requires more == SizeAll(events) && Enough(polls + more, SendLen(ps))
    requires x0.start == SendStart(ps) && x0.len == x0.remaining == SendLen(ps)
    requires x0.file == ps.file && x0.stats == RecordStart(stats, SendLen(ps))
    ensures var z := Callbacks(y, events);
      && z.finished && z.stats == RecordEnd(RecordStart(stats, SendLen(ps)), true)
      && SendStart(ps) + SendLen(ps) <= |ps.file|
      && Handed(z.out) == ps.file[SendStart(ps)..SendStart(ps) + SendLen(ps)]
  {
    HealthyRest(x0, y, events, polls);
    AllHanded(x0, Callbacks(y, events));
  }

  lemma HealthyStart(ps: Params, env: SendEnv, stats: Stats, out: seq<WriterEvent>, x0: Xfer, y: Xfer)
    requires CleanOutput(out) && SendLen(ps) > 0 && SendStart(ps) + SendLen(ps) <= |ps.file|
    requires !Refuses(ps, env) && AllHealthy(env.onHeaders)
    requires x0 == Fresh(ps, stats, out).(out := out + [Headers]) && y == Send(ps, env, stats, out).x
    ensures UnderWay(x0) && x0.start == SendStart(ps) && x0.len == x0.remaining == SendLen(ps)
    ensures x0.file == ps.file && x0.stats == RecordStart(stats, SendLen(ps))
    ensures XferInv(y) && Advances(x0, y) && AfterHealthy(x0, y, SizeAll(env.onHeaders))
  {
    FreshInv(ps, stats, out);
    HealthyCallbacks(x0, env.onHeaders);
    CallbacksKeepInv(x0, env.onHeaders);
  }

  lemma AllHanded(x: Xfer, z: Xfer)
    requires XferInv(z) && Advances(x, z) && z.remaining == 0 && x.len > 0
    ensures x.start + x.len <= |x.file| && Handed(z.out) == x.file[x.start..x.start + x.len]
  {
  }

  lemma HealthyRest(x: Xfer, y: Xfer, events: seq<Poll>, polls: nat)
    requires UnderWay(x) && XferInv(y) && Advances(x, y) && AfterHealthy(x, y, polls) && AllHealthy(events)
    requires (polls + SizeAll(events)) * CHUNK_SIZE >= x.remaining
    ensures var z := Callbacks(y, events);
      && z.finished && z.stats == RecordEnd(x.stats, true)
      && XferInv(z) && Advances(x, z) && z.remaining == 0
  {
    if y.remaining == 0 {
      NoCallbackNoChange(y, events);
    } else {
      HealthyCallbacks(y, events);
      CallbacksKeepInv(y, events);
      assert (polls + SizeAll(events)) * CHUNK_SIZE == polls * CHUNK_SIZE + SizeAll(events) * CHUNK_SIZE;
    }
  }
}

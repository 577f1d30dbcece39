/** Exactly how a transfer ends, and what a request delivers in the request's own terms. */
module StreamOutcome {
  import opened Wrappers
  import opened Bytes
  import opened Stream
  import opened StreamProofs

  // ---- What the pumps come across -----------------------------------------------------------

  /** What one run of `pump` finds, before its write and, if it gets that far, after it: the writer's
      state and how much was read; the write's answer and how many bytes then remain. */
  datatype Look = Saw(connected: bool, drained: bool, got: nat) | Returned(reply: int, remaining: int)

  /** Everything that a poll and the polls nested in it come across, in order. */
  function LooksAt(x: Xfer, p: Poll): seq<Look>
    decreases p, 0
  {
    var got := if p.connected && p.drained then ReadCount(x, Min(x.remaining, CHUNK_SIZE), p.available) else 0;
    if got == 0 then [Saw(p.connected, p.drained, 0)]
    else
      var h := HandOver(x, got);
      [Saw(true, true, got)] + LooksOf(h, p.during) + [Returned(p.reply, Callbacks(h, p.during).remaining)]
  }

  /** A poll runs if the callback is set at that moment. */
  function LooksOf(x: Xfer, ps: seq<Poll>): seq<Look>
    decreases ps
  {
    if ps == [] then []
    else
      var front := ps[..|ps| - 1];
      LooksOf(x, front)
      + if Callbacks(x, front).onwrite then LooksAt(Callbacks(x, front), ps[|ps| - 1]) else []
  }

  /** A writer that is gone, a read that yields nothing and a refused write each fail the transfer; an
      accepted write with no bytes left completes it. A busy writer decides nothing. */
  function Decides(l: Look): Option<bool>
  {
    match l
    case Saw(connected, drained, got) =>
      if !connected || (drained && got == 0) then Some(false) else None
    case Returned(reply, remaining) =>
      if reply < 0 then Some(false) else if remaining <= 0 then Some(true) else None
  }

  /** The first look that decides anything. */
  function Verdict(ls: seq<Look>): Option<bool>
  {
    if ls == [] then None
    else
      var earlier := Verdict(ls[..|ls| - 1]);
      if earlier.Some? then earlier else Decides(ls[|ls| - 1])
  }

  function BytesRead(ls: seq<Look>): nat
  {
    if ls == [] then 0
    else BytesRead(ls[..|ls| - 1]) + if ls[|ls| - 1].Saw? then ls[|ls| - 1].got else 0
  }

  lemma {:induction false} LooksConcat(a: seq<Look>, b: seq<Look>)
    ensures Verdict(a + b) == if Verdict(a).Some? then Verdict(a) else Verdict(b)
    ensures BytesRead(a + b) == BytesRead(a) + BytesRead(b)
    decreases |b|
  {
    if b == [] {
      assert a + b == a;
    } else {
      assert (a + b)[..|a + b| - 1] == a + b[..|b| - 1];
      LooksConcat(a, b[..|b| - 1]);
    }
  }

  lemma LooksOne(l: Look)
    ensures Verdict([l]) == Decides(l)
    ensures BytesRead([l]) == if l.Saw? then l.got else 0
  {
    assert [l][..0] == [];
  }

  lemma {:induction false} VerdictMeans(ls: seq<Look>, success: bool)
    ensures Verdict(ls) == Some(success)
      <==> exists i :: && 0 <= i < |ls| && Decides(ls[i]) == Some(success)
                       && forall j :: 0 <= j < i ==> Decides(ls[j]).None?
    decreases |ls|
  {
    if ls != [] {
      var front := ls[..|ls| - 1];
      VerdictMeans(front, success);
      VerdictMeans(front, !success);
      assert forall i :: 0 <= i < |front| ==> front[i] == ls[i];
      NoVerdictMeans(front);
    }
  }

  lemma {:induction false} NoVerdictMeans(ls: seq<Look>)
    ensures Verdict(ls).None? <==> forall j :: 0 <= j < |ls| ==> Decides(ls[j]).None?
    decreases |ls|
  {
    if ls != [] {
      NoVerdictMeans(ls[..|ls| - 1]);
      assert forall j :: 0 <= j < |ls| - 1 ==> ls[..|ls| - 1][j] == ls[j];
    }
  }

  // ---- What they come across decides --------------------------------------------------------

  /** `y` is what `x` has become after these looks. */
  predicate Obeys(x: Xfer, y: Xfer, ls: seq<Look>)
  {
    && y.remaining == x.remaining - BytesRead(ls)
    && y.hasCallback == x.hasCallback
    && match Verdict(ls)
       case None => !y.finished && y.stats == x.stats && y.completions == x.completions
       case Some(success) =>
         && y.finished && y.stats == RecordEnd(x.stats, success)
         && y.completions == x.completions + if x.hasCallback then [success] else []
  }

  lemma ObeysTrans(x: Xfer, y: Xfer, z: Xfer, a: seq<Look>, b: seq<Look>)
    requires Obeys(x, y, a) && (if y.finished then z == y && b == [] else Obeys(y, z, b))
    ensures Obeys(x, z, a + b)
  {
    LooksConcat(a, b);
    if b == [] { assert a + b == a; }
  }

  lemma {:induction false} PumpObeys(x: Xfer, p: Poll)
    requires XferInv(x) && x.onwrite
    ensures Obeys(x, Pump(x, p), LooksAt(x, p))
    decreases p, 0
  {
    LooksOne(Saw(p.connected, p.drained, 0));
    if p.connected && p.drained {
      var got := ReadCount(x, Min(x.remaining, CHUNK_SIZE), p.available);
      if got > 0 {
        HandOverKeepsInv(x, got);
        CallbacksObey(HandOver(x, got), p.during);
        var h := HandOver(x, got);
        WriteObeys(x, h, Callbacks(h, p.during), got, p.reply, LooksOf(h, p.during));
        PumpWrites(x, p, got);
      }
    }
  }

  /** Before, during and after the write. */
  lemma WriteObeys(x: Xfer, h: Xfer, y: Xfer, got: nat, reply: int, inner: seq<Look>)
    requires !x.finished && got > 0 && x.pos + got <= |x.file| && h == HandOver(x, got) && Obeys(h, y, inner)
    ensures Obeys(x, AfterWrite(y, reply), [Saw(true, true, got)] + inner + [Returned(reply, y.remaining)])
  {
    var before, after := [Saw(true, true, got)], [Returned(reply, y.remaining)];
    LooksOne(before[0]);
    LooksOne(after[0]);
    LooksConcat(before, inner);
    LooksConcat(before + inner, after);
  }

  lemma {:induction false} CallbacksObey(x: Xfer, ps: seq<Poll>)
    requires XferInv(x) && !x.finished
    ensures Obeys(x, Callbacks(x, ps), LooksOf(x, ps))
    decreases ps
  {
    if ps != [] {
      var front := ps[..|ps| - 1];
      CallbacksObey(x, front);
      CallbacksKeepInv(x, front);
      var f := Callbacks(x, front);
      if f.onwrite {
        PumpObeys(f, ps[|ps| - 1]);
        ObeysTrans(x, f, Pump(f, ps[|ps| - 1]), LooksOf(x, front), LooksAt(f, ps[|ps| - 1]));
      } else {
        assert LooksOf(x, front) + [] == LooksOf(x, front);
      }
    }
  }

  /** Everything the pumps come across over a whole life. */
  function LifeLooks(ps: Params, env: SendEnv, stats: Stats, out: seq<WriterEvent>, events: seq<Poll>): seq<Look>
    requires !Refuses(ps, env)
  {
    LooksOf(Fresh(ps, stats, out).(out := out + [Headers]), env.onHeaders)
    + LooksOf(Send(ps, env, stats, out).x, events)
  }

  /** How a non-empty transfer ends: it succeeds exactly if the first thing of consequence that a pump came
      across, nested ones included, is an accepted write with no bytes left; it has failed exactly if
      it is a writer that is gone, a read that yields nothing or a refused write; and as long as there
      was none, a busy writer included, it goes on, until the destructor reports a failure. */
  lemma OutcomeDecided(ps: Params, env: SendEnv, stats: Stats, out: seq<WriterEvent>, events: seq<Poll>)
    requires CleanOutput(out) && !Refuses(ps, env) && SendLen(ps) != 0
    ensures var verdict := Verdict(LifeLooks(ps, env, stats, out, events));
      var y := Callbacks(Send(ps, env, stats, out).x, events);
      var z := Life(ps, env, stats, out, events);
      && (y.finished <==> verdict.Some?)
      && z.completions == (if ps.hasCallback then [verdict == Some(true)] else [])
      && z.stats == RecordEnd(RecordStart(stats, SendLen(ps)), verdict == Some(true))
      && y.remaining == SendLen(ps) - BytesRead(LifeLooks(ps, env, stats, out, events))
  {
    FreshInv(ps, stats, out);
    var x0 := Fresh(ps, stats, out).(out := out + [Headers]);
    var s := Send(ps, env, stats, out).x;
    assert s == Callbacks(x0, env.onHeaders);
    CallbacksObey(x0, env.onHeaders);
    CallbacksKeepInv(x0, env.onHeaders);
    if s.finished {
      NoLooks(s, events);
    } else {
      CallbacksObey(s, events);
    }
    ObeysTrans(x0, s, Callbacks(s, events), LooksOf(x0, env.onHeaders), LooksOf(s, events));
  }

  lemma {:induction false} NoLooks(x: Xfer, ps: seq<Poll>)
    requires !x.onwrite
    ensures Callbacks(x, ps) == x && LooksOf(x, ps) == []
    decreases |ps|
  {
    if ps != [] { NoLooks(x, ps[..|ps| - 1]); }
  }

  // ---- What is written ----------------------------------------------------------------------

  function HeaderCount(out: seq<WriterEvent>): nat
  {
    if out == [] then 0
    else HeaderCount(out[..|out| - 1]) + if out[|out| - 1].Headers? then 1 else 0
  }

  lemma HeadersSnoc(out: seq<WriterEvent>, e: WriterEvent)
    ensures HeaderCount(out + [e]) == HeaderCount(out) + if e.Headers? then 1 else 0
  {
    assert (out + [e])[..|out|] == out;
  }

  /** Something was written behind `out`, and no headers. */
  predicate Continues(out: seq<WriterEvent>, more: seq<WriterEvent>)
  {
    out <= more && HeaderCount(more) == HeaderCount(out)
  }

  lemma {:induction false} PumpContinues(x: Xfer, p: Poll)
    ensures Continues(x.out, Pump(x, p).out)
    decreases p, 0
  {
    if !x.finished && p.connected && p.drained {
      var got := ReadCount(x, Min(x.remaining, CHUNK_SIZE), p.available);
      if got > 0 {
        var h := HandOver(x, got);
        HeadersSnoc(x.out, Body(x.file[x.pos..x.pos + got]));
        CallbacksContinue(h, p.during);
        HeadersSnoc(Callbacks(h, p.during).out, End);
      }
    }
  }

  lemma {:induction false} CallbacksContinue(x: Xfer, ps: seq<Poll>)
    ensures Continues(x.out, Callbacks(x, ps).out)
    decreases ps
  {
    if ps != [] {
      CallbacksContinue(x, ps[..|ps| - 1]);
      PumpContinues(Callbacks(x, ps[..|ps| - 1]), ps[|ps| - 1]);
    }
  }

  /** Whatever a request asks for and whatever happens, its headers are written once, before anything
      else. */
  lemma HeadersOnceAndFirst(ps: Params, env: SendEnv, stats: Stats, out: seq<WriterEvent>, events: seq<Poll>)
    requires !Refuses(ps, env)
    ensures var x := Life(ps, env, stats, out, events);
      out + [Headers] <= x.out && HeaderCount(x.out) == HeaderCount(out) + 1
  {
    var x0 := Fresh(ps, stats, out).(out := out + [Headers]);
    HeadersSnoc(out, Headers);
    SendContinues(ps, env, stats, out, x0, Send(ps, env, stats, out).x);
    CallbacksContinue(Send(ps, env, stats, out).x, events);
  }

  lemma SendContinues(ps: Params, env: SendEnv, stats: Stats, out: seq<WriterEvent>, x0: Xfer, y: Xfer)
    requires !Refuses(ps, env) && x0 == Fresh(ps, stats, out).(out := out + [Headers])
    requires y == Send(ps, env, stats, out).x
    ensures Continues(x0.out, y.out)
  {
    CallbacksContinue(x0, env.onHeaders);
    var h := Callbacks(x0, env.onHeaders);
    HeadersSnoc(h.out, End);
    CallbacksContinue(h.(out := h.out + [End]), env.onEnd);
  }

  // ---- What a request asks for --------------------------------------------------------------

  /** Both ends of a range are asked for; without a range, the whole file as given by its size. */
  function Asked(ps: Params): int
  {
    if ps.rangeStart >= 0 && ps.rangeEnd >= 0 then ps.rangeEnd + 1 - ps.rangeStart else ps.fileSize
  }

  /** `x` is the end of a request: success means that exactly the bytes from `rangeStart` to `rangeEnd`, both
      included, or exactly the whole file was handed over. One transfer is counted, and what was asked
      for, and an error exactly without success; none stays active. */
  predicate Delivered(ps: Params, stats: Stats, x: Xfer, success: bool)
  {
    && x.completions == (if ps.hasCallback then [success] else [])
    && x.stats == Stats(stats.totalCount + 1, stats.totalBytes + Asked(ps), stats.activeCount,
                        stats.errorCount + if success then 0 else 1)
    && (success && ps.rangeStart >= 0 && ps.rangeEnd >= 0 ==>
          && ps.rangeStart <= ps.rangeEnd < |ps.file|
          && Handed(x.out) == ps.file[ps.rangeStart..ps.rangeEnd + 1])
    && (success && (ps.rangeStart < 0 || ps.rangeEnd < 0) ==>
          0 <= ps.fileSize <= |ps.file| && Handed(x.out) == ps.file[..ps.fileSize])
  }

  /** Every request that asks for something ends like that, whatever happens. */
  lemma RequestDelivers(ps: Params, env: SendEnv, stats: Stats, out: seq<WriterEvent>, events: seq<Poll>)
    requires CleanOutput(out) && !Refuses(ps, env) && Asked(ps) > 0
    ensures exists success :: Delivered(ps, stats, Life(ps, env, stats, out, events), success)
  {
    LifeCompletesOnce(ps, env, stats, out, events);
    var x := Life(ps, env, stats, out, events);
    var success :|
      && x.completions == (if ps.hasCallback then [success] else [])
      && x.stats == RecordEnd(RecordStart(stats, SendLen(ps)), success)
      && (success ==>
            && SendStart(ps) + SendLen(ps) <= |ps.file|
            && Handed(x.out) == ps.file[SendStart(ps)..SendStart(ps) + SendLen(ps)]);
    assert SendLen(ps) == Asked(ps);
    if success && !IsRange(ps) { assert ps.file[0..ps.fileSize] == ps.file[..ps.fileSize]; }
    assert Delivered(ps, stats, x, success);
  }

  /** The handoff is marked exactly for requests that ask for something. */
  lemma EmptyIffNothingAsked(ps: Params, env: SendEnv, stats: Stats, out: seq<WriterEvent>)
    requires !Refuses(ps, env)
    ensures Send(ps, env, stats, out).handoff <==> Asked(ps) != 0
  {
  }

  /** The bytes 1 to 2 of four, on a writer that is busy once and then takes the block. */
  lemma TwoBytesOfFour()
    ensures var ps, env := Params([10, 20, 30, 40], 4, 1, 2, true), SendEnv(true, true, true, [], []);
      var busy, ready := Poll(true, false, 0, 0, []), Poll(true, true, CHUNK_SIZE, 0, []);
      var x := Life(ps, env, NoStats, [], [busy, ready]);
      x.completions == [true] && Handed(x.out) == [20, 30] && x.stats == Stats(1, 2, 0, 0)
  {
    var ps, env := Params([10, 20, 30, 40], 4, 1, 2, true), SendEnv(true, true, true, [], []);
    var busy, ready := Poll(true, false, 0, 0, []), Poll(true, true, CHUNK_SIZE, 0, []);
    var events := [busy, ready];
    TwoPolls(busy, ready);
    HealthyTransferSucceeds(ps, env, NoStats, [], events);
    RequestDelivers(ps, env, NoStats, [], events);
    assert ps.file[1..3] == [20, 30];
  }

  lemma TwoPolls(busy: Poll, ready: Poll)
    requires Healthy(busy) && Healthy(ready) && !busy.drained && ready.drained && ready.during == []
    ensures AllHealthy([busy, ready]) && SizeAll([busy, ready]) == 1 && AllHealthy([]) && SizeAll([]) == 0
  {
    var ps := [busy, ready];
    assert ps[..1] == [busy] && ps[1] == ready;
    assert [busy][..0] == [] && [busy][0] == busy;
    assert SizeAll([busy]) == SizeAll([]) + Size(busy) == 0;
    assert SizeAll(ps) == SizeAll([busy]) + Size(ready);
  }
}

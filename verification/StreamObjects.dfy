/** The stream transfer as objects updated in place: the shared counters, the writer with its
    callback, and the transfer state. Each method is proved equal to its function in `Stream`.

    `Pump` and `WriteBody` call each other. Their termination rests on the file's bookkeeping alone:
    `remaining` has dropped before `WriteBody` runs, so every nested `Pump` starts from less. */
module StreamObjects {
  import opened Bytes
  import S = Stream

  class TransferStats {
    var totalCount: int
    var totalBytes: int
    var activeCount: int
    var errorCount: int

    constructor ()
      ensures View() == S.NoStats
    {
      totalCount, totalBytes, activeCount, errorCount := 0, 0, 0, 0;
    }

    function View(): S.Stats
      reads this
    {
      S.Stats(totalCount, totalBytes, activeCount, errorCount)
    }

    method RecordStart(bytes: int)
      modifies this
      ensures View() == S.RecordStart(old(View()), bytes)
    {
      totalCount := totalCount + 1;
      totalBytes := totalBytes + bytes;
      activeCount := activeCount + 1;
    }

    method RecordEnd(success: bool)
      modifies this
      ensures View() == S.RecordEnd(old(View()), success)
    {
      activeCount := activeCount - 1;
      if !success { errorCount := errorCount + 1; }
    }
  }

  class Writer {
    var onwrite: bool
    var out: seq<S.WriterEvent>
  }

  lemma {:induction false} PumpLowersRemaining(x: S.Xfer, p: S.Poll)
    ensures S.Pump(x, p).remaining <= x.remaining
    decreases p, 0
  {
    if !x.finished && p.connected && p.drained {
      var got := S.ReadCount(x, S.Min(x.remaining, S.CHUNK_SIZE), p.available);
      if got > 0 { CallbacksLowerRemaining(S.HandOver(x, got), p.during); }
    }
  }

  lemma {:induction false} CallbacksLowerRemaining(x: S.Xfer, ps: seq<S.Poll>)
    ensures S.Callbacks(x, ps).remaining <= x.remaining
    decreases ps
  {
    if ps != [] {
      var front := S.Callbacks(x, ps[..|ps| - 1]);
      CallbacksLowerRemaining(x, ps[..|ps| - 1]);
      PumpLowersRemaining(front, ps[|ps| - 1]);
    }
  }

  lemma CallbacksSnoc(x: S.Xfer, ps: seq<S.Poll>, i: nat)
    requires i < |ps|
    ensures var f := S.Callbacks(x, ps[..i]);
      S.Callbacks(x, ps[..i + 1]) == if f.onwrite then S.Pump(f, ps[i]) else f
  {
    assert ps[..i + 1][..i] == ps[..i];
  }

  class TransferState {
    const file: seq<Byte>
    const start: nat
    const len: int
    const hasCallback: bool
    const writer: Writer
    const stats: TransferStats
    var pos: nat
    var remaining: int
    var finished: bool
    var completions: seq<bool>

    function View(): S.Xfer
      reads this, writer, stats
    {
      S.Xfer(file, start, len, pos, remaining, finished, writer.onwrite, writer.out,
             hasCallback, completions, stats.View())
    }

    constructor (ps: S.Params, writer: Writer, stats: TransferStats)
      ensures this.writer == writer && this.stats == stats
      ensures file == ps.file && start == S.SendStart(ps) && len == S.SendLen(ps)
      ensures hasCallback == ps.hasCallback
      ensures pos == start && remaining == len && !finished && completions == []
    {
      this.file := ps.file;
      this.start := S.SendStart(ps);
      this.len := S.SendLen(ps);
      this.hasCallback := ps.hasCallback;
      this.writer := writer;
      this.stats := stats;
      pos := S.SendStart(ps);
      remaining := S.SendLen(ps);
      finished := false;
      completions := [];
    }

    method Complete(success: bool)
      modifies this`completions
      ensures completions == if hasCallback then old(completions) + [success] else old(completions)
    {
      if hasCallback { completions := completions + [success]; }
    }

    method Finish(success: bool)
      modifies this, writer, stats
      ensures View() == S.Finish(old(View()), success)
    {
      if finished { return; }
      finished := true;
      writer.onwrite := false;
      stats.RecordEnd(success);
      Complete(success);
    }

    /** The destructor. */
    method Destroy()
      modifies this, writer, stats
      ensures View() == S.Destroy(old(View()))
    {
      if !finished {
        writer.onwrite := false;
        stats.RecordEnd(false);
        Complete(false);
      }
    }

    /** Everything `pump` does before it calls the writer. */
    method TakeBlock(got: nat) returns (buf: seq<Byte>)
      requires pos + got <= |file|
      modifies this, writer
      ensures remaining == old(remaining) - got
      ensures View().(out := View().out + [S.Body(buf)]) == S.HandOver(old(View()), got)
    {
      buf := file[pos..pos + got];
      pos := pos + got;
      remaining := remaining - got;
      if remaining <= 0 { writer.onwrite := false; }
    }

    method Pump(p: S.Poll)
      modifies this, writer, stats
      ensures View() == S.Pump(old(View()), p)
      decreases if remaining < 0 then 0 else remaining, 1
    {
      if finished { return; }
      if !p.connected {
        Finish(false);
        return;
      }
      if !p.drained { return; }
      var toRead := if remaining < S.CHUNK_SIZE then remaining else S.CHUNK_SIZE;
      var got := S.ReadCount(View(), toRead, p.available);
      if got <= 0 {
        Finish(false);
        return;
      }
      var buf := TakeBlock(got);
      var ret := WriteBody(buf, p.reply, p.during);
      if ret < 0 {
        Finish(false);
        return;
      }
      if remaining <= 0 {
        writer.out := writer.out + [S.End];
        Finish(true);
      }
    }

    /** The writer takes the bytes and may fire its callback before returning. */
    method WriteBody(buf: seq<Byte>, reply: int, during: seq<S.Poll>) returns (ret: int)
      modifies this, writer, stats
      ensures ret == reply
      ensures View() == S.Callbacks(old(View()).(out := old(View()).out + [S.Body(buf)]), during)
      decreases if remaining < 0 then 0 else remaining, 2
    {
      writer.out := writer.out + [S.Body(buf)];
      Fire(during);
      ret := reply;
    }

    method Fire(events: seq<S.Poll>)
      modifies this, writer, stats
      ensures View() == S.Callbacks(old(View()), events)
      decreases if remaining < 0 then 0 else remaining, 2, 0
    {
      ghost var x := View();
      assert events[..0] == [];
      for i := 0 to |events|
        invariant View() == S.Callbacks(x, events[..i])
        invariant remaining <= x.remaining
      {
        CallbacksSnoc(x, events, i);
        CallbacksLowerRemaining(x, events[..i + 1]);
        if writer.onwrite { Pump(events[i]); }
      }
      assert events[..|events|] == events;
    }
  }

  /** `send`: null is an early error return, whose completions are in the last result. */
  method Send(ps: S.Params, env: S.SendEnv, writer: Writer, stats: TransferStats)
    returns (state: TransferState?, handoff: bool, refusal: seq<bool>)
    modifies writer, stats
    ensures var spec := S.Send(ps, env, old(stats.View()), old(writer.out));
      match spec {
        case Refused(c) =>
          state == null && refusal == c && !handoff && unchanged(stats) && unchanged(writer)
        case Started(x, h) =>
          && state != null && state.writer == writer && state.stats == stats
          && state.View() == x && handoff == h && refusal == []
      }
  {
    var isRange := ps.rangeStart >= 0 && ps.rangeEnd >= 0;
    if !env.hasWriter || !env.opens || (isRange && !env.seeks) {
      return null, false, if ps.hasCallback then [false] else [];
    }
    var sendLen := if isRange then ps.rangeEnd - ps.rangeStart + 1 else ps.fileSize;
    var s := new TransferState(ps, writer, stats);
    stats.RecordStart(sendLen);
    writer.onwrite := true;
    assert s.View() == S.Fresh(ps, old(stats.View()), old(writer.out));
    writer.out := writer.out + [S.Headers];
    s.Fire(env.onHeaders);
    if sendLen == 0 {
      writer.out := writer.out + [S.End];
      s.Fire(env.onEnd);
      s.Finish(true);
      return s, false, [];
    }
    return s, true, [];
  }
}

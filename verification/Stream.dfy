/** The event-driven file transfer: what one callback, one `send` and a whole life do, as functions.

    The writer's callback may re-enter `pump` synchronously from inside `WriteBody`, `EndHeaders` or
    `End`. A `Poll` describes everything one run of `pump` meets in its environment, including the
    polls nested inside its own `WriteBody`; any finite tree of polls is allowed. */
module Stream {

  import opened Bytes

  const CHUNK_SIZE: int := 256 * 1024

  /** `connected`, `drained`: what the writer reports. `available`: how much the disk read delivers
      at most. `reply`: what `WriteBody` returns. `during`: callbacks fired inside `WriteBody`. */
  datatype Poll = Poll(connected: bool, drained: bool, available: nat, reply: int, during: seq<Poll>)

  datatype WriterEvent = Headers | Body(bytes: seq<Byte>) | End

  // ---- Counters -----------------------------------------------------------------------------

  datatype Stats = Stats(totalCount: int, totalBytes: int, activeCount: int, errorCount: int)

  const NoStats: Stats := Stats(0, 0, 0, 0)

  function RecordStart(st: Stats, bytes: int): Stats
  {
    Stats(st.totalCount + 1, st.totalBytes + bytes, st.activeCount + 1, st.errorCount)
  }

  function RecordEnd(st: Stats, success: bool): Stats
  {
    st.(activeCount := st.activeCount - 1, errorCount := st.errorCount + if success then 0 else 1)
  }

  // ---- One transfer -------------------------------------------------------------------------

  /** `pos` is the file's read position; `onwrite` says the writer's callback is this transfer's
      pump; `completions` logs the arguments of `onComplete`. `start` and `len` never change. */
  datatype Xfer = Xfer(
    file: seq<Byte>, start: nat, len: int,
    pos: nat, remaining: int, finished: bool,
    onwrite: bool, out: seq<WriterEvent>,
    hasCallback: bool, completions: seq<bool>,
    stats: Stats)

  function Finish(x: Xfer, success: bool): Xfer
  {
    if x.finished then x
    else x.(finished := true, onwrite := false, stats := RecordEnd(x.stats, success),
            completions := if x.hasCallback then x.completions + [success] else x.completions)
  }

  function Min(a: int, b: int): int { if a < b then a else b }

  /** `gcount()` after reading up to `want` bytes: bounded by the request, by what is left of the
      file, and by whatever the disk delivers. A read past the end, or of no bytes, yields 0. */
  function ReadCount(x: Xfer, want: int, available: nat): (got: nat)
    ensures got > 0 ==> got <= want && got <= available && x.pos + got <= |x.file|
    ensures got >= want || got == available || x.pos + got >= |x.file|
  {
    if want <= 0 || x.pos >= |x.file| then 0 else Min(available, Min(want, |x.file| - x.pos))
  }

  /** The state in which `WriteBody` runs: the bytes are handed over, `remaining` is already reduced,
      and for the last block the callback is already cleared. */
  function HandOver(x: Xfer, got: nat): Xfer
    requires x.pos + got <= |x.file|
  {
    x.(pos := x.pos + got, remaining := x.remaining - got,
       onwrite := if x.remaining - got <= 0 then false else x.onwrite,
       out := x.out + [Body(x.file[x.pos..x.pos + got])])
  }

  function Pump(x: Xfer, p: Poll): Xfer
    decreases p, 0
  {
    if x.finished then x
    else if !p.connected then Finish(x, false)
    else if !p.drained then x
    else
      var got := ReadCount(x, Min(x.remaining, CHUNK_SIZE), p.available);
      if got <= 0 then Finish(x, false)
      else
        var y := Callbacks(HandOver(x, got), p.during);
        if p.reply < 0 then Finish(y, false)
        else if y.remaining <= 0 then Finish(y.(out := y.out + [End]), true)
        else y
  }

  /** The writer fires its callback for each poll, if a callback is set at that moment. */
  function Callbacks(x: Xfer, ps: seq<Poll>): Xfer
    decreases ps
  {
    if ps == [] then x
    else
      var front := Callbacks(x, ps[..|ps| - 1]);
      if front.onwrite then Pump(front, ps[|ps| - 1]) else front
  }

  // ---- send ---------------------------------------------------------------------------------

  datatype Params = Params(file: seq<Byte>, fileSize: int, rangeStart: int, rangeEnd: int, hasCallback: bool)

  predicate IsRange(ps: Params) { ps.rangeStart >= 0 && ps.rangeEnd >= 0 }

  function SendStart(ps: Params): nat { if IsRange(ps) then ps.rangeStart else 0 }

  function SendLen(ps: Params): int
  {
    if IsRange(ps) then ps.rangeEnd - ps.rangeStart + 1 else ps.fileSize
  }

  /** What `send` meets: whether the request has a writer, the file opens and the seek succeeds, and
      the callbacks fired while the headers (and, for an empty file, the end) are written. */
  datatype SendEnv = SendEnv(hasWriter: bool, opens: bool, seeks: bool, onHeaders: seq<Poll>, onEnd: seq<Poll>)

  /** `Refused` is an early error return; the state object, if it was made, dies unstarted. */
  datatype Sent = Refused(completions: seq<bool>) | Started(x: Xfer, handoff: bool)

  function Fresh(ps: Params, stats: Stats, out: seq<WriterEvent>): Xfer
  {
    Xfer(ps.file, SendStart(ps), SendLen(ps), SendStart(ps), SendLen(ps), false, true, out,
         ps.hasCallback, [], RecordStart(stats, SendLen(ps)))
  }

  predicate Refuses(ps: Params, env: SendEnv)
  {
    !env.hasWriter || !env.opens || (IsRange(ps) && !env.seeks)
  }

  function Send(ps: Params, env: SendEnv, stats: Stats, out: seq<WriterEvent>): Sent
  {
    if Refuses(ps, env) then Refused(if ps.hasCallback then [false] else [])
    else
      var x := Fresh(ps, stats, out);
      var h := Callbacks(x.(out := x.out + [Headers]), env.onHeaders);
      if SendLen(ps) == 0 then
        Started(Finish(Callbacks(h.(out := h.out + [End]), env.onEnd), true), false)
      else Started(h, true)
  }

  /** Destruction of the state object: the safety net reports an unfinished transfer as failed. */
  function Destroy(x: Xfer): Xfer
  {
    if x.finished then x
    else x.(onwrite := false, stats := RecordEnd(x.stats, false),
            completions := if x.hasCallback then x.completions + [false] else x.completions)
  }

  // ---- What every step keeps ----------------------------------------------------------------

  /** The bytes handed to the writer, in order. */
  function Handed(out: seq<WriterEvent>): (bytes: seq<Byte>)
  {
    if out == [] then []
    else
      var e := out[|out| - 1];
      Handed(out[..|out| - 1]) + (if e.Body? then e.bytes else [])
  }

  predicate PrefixFrom(bytes: seq<Byte>, file: seq<Byte>, start: nat)
  {
    bytes == [] || (start + |bytes| <= |file| && bytes == file[start..start + |bytes|])
  }

  /** `End` reached the writer only after `len` bytes had been handed over. */
  ghost predicate EndsAfter(out: seq<WriterEvent>, len: int)
  {
    forall i :: 0 <= i < |out| && out[i].End? ==> |Handed(out[..i])| == len
  }

  ghost predicate XferInv(x: Xfer)
  {
    && PrefixFrom(Handed(x.out), x.file, x.start)
    && x.pos == x.start + |Handed(x.out)|
    && x.remaining + |Handed(x.out)| == x.len
    && (x.len >= 0 ==> x.remaining >= 0)
    && (x.onwrite ==> !x.finished && (x.len > 0 ==> x.remaining > 0))
    && (x.len > 0 ==> EndsAfter(x.out, x.len))
  }
}

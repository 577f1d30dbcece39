/** The legacy transfer's send loop: the same transfer as `Stream`, pushed from one thread, with
    back-pressure, disconnect detection and a timeout. */
module Legacy {
  import opened Bytes
  import opened Stream
  import StreamProofs

  const BACKPRESSURE: nat := 4 * 1024 * 1024
  const WAIT_MS: nat := 10
  const TIMEOUT_MS: nat := 60 * 1000

  /** What the loop meets, by the number of the observation: how much the socket drains before it,
      whether the writer is connected, how much a read delivers at most, what `writeBody` returns. */
  datatype Env = Env(drained: nat -> nat, connected: nat -> bool, available: nat -> nat, reply: nat -> int)

  function Drain(buffered: nat, amount: nat): nat { if amount >= buffered then 0 else buffered - amount }

  /** Every observation finds the writer connected and its buffer drained, every read is complete
      and every write is accepted. */
  ghost predicate Healthy(env: Env, buffered: nat)
  {
    forall t: nat ::
      && env.connected(t) && env.reply(t) >= 0 && env.available(t) >= CHUNK_SIZE
      && env.drained(t) >= buffered + BACKPRESSURE + CHUNK_SIZE
  }

  /** The buffer fill at the n-th observation from `t` on. */
  function LevelAt(buffered: nat, env: Env, t: nat, n: nat): (level: nat)
    ensures level <= buffered
  {
    if n == 0 then buffered else Drain(LevelAt(buffered, env, t, n - 1), env.drained(t + n - 1))
  }

  /** The n-th observation finds the writer connected and its buffer above the threshold. */
  predicate MustWait(buffered: nat, env: Env, t: nat, n: nat)
    requires n > 0
  {
    LevelAt(buffered, env, t, n) > BACKPRESSURE && env.connected(t + n - 1)
  }

  const MAX_LOOKS: nat := TIMEOUT_MS / WAIT_MS

  /** Waiting for the socket: `looks` observations, all but the last of which said wait; the last does
      too exactly if the wait has timed out, which takes 6000 of them. */
  method AwaitDrain(buffered: nat, env: Env, start: nat)
    returns (level: nat, looks: nat, timedOut: bool, connected: bool)
    ensures 1 <= looks <= MAX_LOOKS
    ensures level == LevelAt(buffered, env, start, looks) && connected == env.connected(start + looks - 1)
    ensures forall n :: 1 <= n < looks ==> MustWait(buffered, env, start, n)
    ensures timedOut <==> MustWait(buffered, env, start, looks)
    ensures timedOut ==> looks == MAX_LOOKS
  {
    timedOut := false;
    assert LevelAt(buffered, env, start, 0) == buffered;
    level := Drain(buffered, env.drained(start));
    connected := env.connected(start);
    looks := 1;
    var waitedMs := 0;
    while level > BACKPRESSURE && connected
      invariant 1 <= looks <= MAX_LOOKS && waitedMs == (looks - 1) * WAIT_MS && !timedOut
      invariant level == LevelAt(buffered, env, start, looks) && connected == env.connected(start + looks - 1)
      invariant forall n :: 1 <= n < looks ==> MustWait(buffered, env, start, n)
      decreases MAX_LOOKS - looks
    {
      waitedMs := waitedMs + WAIT_MS;
      if waitedMs >= TIMEOUT_MS {
        timedOut := true;
        break;
      }
      assert MustWait(buffered, env, start, looks);
      level := Drain(level, env.drained(start + looks));
      connected := env.connected(start + looks);
      looks := looks + 1;
    }
  }

  /** `n` is how often a wait that starts at `t` looks. */
  ghost predicate Looks(buffered: nat, env: Env, t: nat, n: nat)
  {
    && 1 <= n <= MAX_LOOKS
    && (forall j :: 1 <= j < n ==> MustWait(buffered, env, t, j))
    && (n == MAX_LOOKS || !MustWait(buffered, env, t, n))
  }

  lemma LooksUnique(buffered: nat, env: Env, t: nat, n: nat, m: nat)
    requires Looks(buffered, env, t, n) && Looks(buffered, env, t, m)
    ensures n == m
  {
  }

  ghost function LooksOf(buffered: nat, env: Env, t: nat): (n: nat)
    ensures (exists m: nat :: Looks(buffered, env, t, m)) ==> Looks(buffered, env, t, n)
  {
    if exists m: nat :: Looks(buffered, env, t, m) then
      var m: nat :| Looks(buffered, env, t, m);
      m
    else 0
  }

  /** Where the loop stands: file position, bytes remaining, buffer fill, next observation. */
  datatype Point = Point(pos: nat, remaining: int, level: nat, t: nat)

  function Want(p: Point): int { Min(p.remaining, CHUNK_SIZE) }

  /** The next block can be sent: the wait, which looks `n` times, ends connected and below the threshold,
      the read is complete, the write is accepted and leaves the writer connected. */
  predicate BlockSent(file: seq<Byte>, env: Env, p: Point, n: nat)
    requires n > 0
  {
    var t := p.t + n;
    && LevelAt(p.level, env, p.t, n) <= BACKPRESSURE && env.connected(t - 1)
    && Min(env.available(t), Min(Want(p), |file| - p.pos)) == Want(p)
    && env.reply(t) >= 0 && env.connected(t)
  }

  function Next(env: Env, p: Point, n: nat): Point
    requires p.remaining > 0
  {
    Point(p.pos + Want(p), p.remaining - Want(p), LevelAt(p.level, env, p.t, n) + Want(p), p.t + n + 1)
  }

  /** Every block of what remains can be sent, one after the other. */
  ghost predicate AllSent(file: seq<Byte>, env: Env, p: Point)
    decreases p.remaining
  {
    p.remaining <= 0 ||
    var n := LooksOf(p.level, env, p.t);
    n > 0 && BlockSent(file, env, p, n) && AllSent(file, env, Next(env, p, n))
  }

  /** What one round decides about the rest of the transfer. */
  lemma RoundDecides(file: seq<Byte>, env: Env, p: Point, n: nat)
    requires p.remaining > 0 && Looks(p.level, env, p.t, n)
    ensures AllSent(file, env, p) <==> BlockSent(file, env, p, n) && AllSent(file, env, Next(env, p, n))
  {
    LooksUnique(p.level, env, p.t, n, LooksOf(p.level, env, p.t));
  }

  lemma HealthyLooks(level: nat, buffered: nat, env: Env, t: nat)
    requires Healthy(env, buffered) && level <= buffered + BACKPRESSURE + CHUNK_SIZE
    ensures Looks(level, env, t, 1) && LevelAt(level, env, t, 1) == 0
  {
    assert env.drained(t) >= level;
    assert LevelAt(level, env, t, 0) == level;
  }

  /** With nothing going wrong every block is sent. */
  lemma {:induction false} HealthyAllSent(file: seq<Byte>, env: Env, p: Point, buffered: nat)
    requires Healthy(env, buffered) && p.pos + p.remaining <= |file|
    requires p.level <= buffered + BACKPRESSURE + CHUNK_SIZE
    ensures AllSent(file, env, p)
    decreases p.remaining
  {
    if p.remaining > 0 {
      HealthyLooks(p.level, buffered, env, p.t);
      RoundDecides(file, env, p, 1);
      HealthyAllSent(file, env, Next(env, p, 1), buffered);
    }
  }

  /** Read a block of `want` bytes and write it at observation `t`. */
  method WriteBlock(file: seq<Byte>, pos: nat, want: int, level: nat, env: Env, t: nat)
    returns (ok: bool, block: seq<Byte>, accepted: bool, fill: nat)
    requires 0 < want <= CHUNK_SIZE
    ensures |block| <= want
    ensures block != [] ==> pos + |block| <= |file| && block == file[pos..pos + |block|]
    ensures accepted ==> fill == level + |block|
    ensures ok <==> Min(env.available(t), Min(want, |file| - pos)) == want && env.reply(t) >= 0 && env.connected(t)
    ensures ok ==> accepted && |block| == want
  {
    var got := if pos >= |file| then 0 else Min(env.available(t), Min(want, |file| - pos));
    if got <= 0 { return false, [], false, level; }
    block := file[pos..pos + got];
    var ret, stillConnected := env.reply(t), env.connected(t);
    accepted := ret >= 0;
    fill := if accepted then level + got else level;
    ok := accepted && stillConnected && got == want;
  }

  /** One round: wait, read, write. `ok` says the loop goes on as far as this block is concerned; `n` is
      how often the wait looked. */
  method SendBlock(file: seq<Byte>, env: Env, p: Point)
    returns (ok: bool, block: seq<Byte>, accepted: bool, fill: nat, tick: nat, ghost n: nat)
    requires p.remaining > 0
    ensures |block| <= Want(p)
    ensures block != [] ==> p.pos + |block| <= |file| && block == file[p.pos..p.pos + |block|]
    ensures accepted ==> fill <= BACKPRESSURE + CHUNK_SIZE
    ensures Looks(p.level, env, p.t, n)
    ensures ok <==> BlockSent(file, env, p, n)
    ensures ok ==> accepted && Next(env, p, n) == Point(p.pos + |block|, p.remaining - |block|, fill, tick)
  {
    var timedOut, connected;
    var looks: nat;
    fill, looks, timedOut, connected := AwaitDrain(p.level, env, p.t);
    n := looks;
    var toRead := if p.remaining < CHUNK_SIZE then p.remaining else CHUNK_SIZE;
    tick := p.t + looks;
    if timedOut || !connected { return false, [], false, fill, tick, n; }
    ok, block, accepted, fill := WriteBlock(file, p.pos, toRead, fill, env, tick);
    tick := tick + 1;
  }

  lemma Appends(written: seq<Byte>, block: seq<Byte>, file: seq<Byte>, start: nat)
    requires PrefixFrom(written, file, start)
    requires var pos := start + |written|;
      block != [] ==> pos + |block| <= |file| && block == file[pos..pos + |block|]
    ensures PrefixFrom(written + block, file, start)
  {
    if block != [] { StreamProofs.PrefixGrows(written, file, start, |block|); }
  }

  /** A property of points that holds with nothing remaining and is otherwise decided by the next round. */
  ghost predicate RoundLaw(all: Point -> bool, file: seq<Byte>, env: Env)
  {
    && (forall p: Point :: p.remaining == 0 ==> all(p))
    && forall p: Point, n: nat :: p.remaining > 0 && Looks(p.level, env, p.t, n) ==>
         (all(p) <==> BlockSent(file, env, p, n) && all(Next(env, p, n)))
  }

  lemma AllSentIsLawful(file: seq<Byte>, env: Env, p0: Point, buffered: nat) returns (all: Point -> bool)
    ensures RoundLaw(all, file, env) && all(p0) == AllSent(file, env, p0)
    ensures Healthy(env, buffered) && p0.pos + p0.remaining <= |file| && p0.level == buffered ==> all(p0)
  {
    all := p => AllSent(file, env, p);
    if Healthy(env, buffered) && p0.pos + p0.remaining <= |file| && p0.level == buffered {
      HealthyAllSent(file, env, p0, buffered);
    }
    forall p: Point, n: nat | p.remaining > 0 && Looks(p.level, env, p.t, n)
      ensures AllSent(file, env, p) <==> BlockSent(file, env, p, n) && AllSent(file, env, Next(env, p, n))
    {
      RoundDecides(file, env, p, n);
    }
  }

  /** The loop: it ends, and has nothing left to send exactly if everything was sendable. `levels` is the
      buffer fill after each write. */
  method Rounds(file: seq<Byte>, start: nat, sendLen: int, buffered: nat, env: Env, ghost all: Point -> bool)
    returns (remaining: int, written: seq<Byte>, levels: seq<nat>)
    requires sendLen > 0 && RoundLaw(all, file, env)
    ensures remaining == 0 <==> all(Point(start, sendLen, buffered, 0))
    ensures PrefixFrom(written, file, start) && |written| <= sendLen
    ensures remaining == 0 ==> |written| == sendLen
    ensures forall i :: 0 <= i < |levels| ==> levels[i] <= BACKPRESSURE + CHUNK_SIZE
  {
    remaining := sendLen;
    var level: nat := buffered;
    var tick: nat := 0;
    var pos := start;
    var good := true;
    written, levels := [], [];
    while remaining > 0 && good
      invariant 0 <= remaining && |written| <= sendLen
      invariant good ==> pos == start + |written| && |written| + remaining == sendLen
      invariant PrefixFrom(written, file, start)
      invariant forall i :: 0 <= i < |levels| ==> levels[i] <= BACKPRESSURE + CHUNK_SIZE
      invariant good ==> all(Point(start, sendLen, buffered, 0)) == all(Point(pos, remaining, level, tick))
      invariant !good ==> !all(Point(start, sendLen, buffered, 0)) && remaining > 0
      decreases remaining, good
    {
      var p := Point(pos, remaining, level, tick);
      var block, accepted;
      var fill: nat;
      ghost var n;
      good, block, accepted, fill, tick, n := SendBlock(file, env, p);
      assert all(p) <==> BlockSent(file, env, p, n) && all(Next(env, p, n));
      Appends(written, block, file, start);
      written := written + block;
      if accepted {
        level := fill;
        levels := levels + [level];
      }
      if good {
        pos := pos + |block|;
        remaining := remaining - |block|;
      }
    }
  }

  /** For every pattern of short reads, drains, disconnects and failed writes the loop ends, and it
      succeeds exactly if every block can be sent. What it wrote is a prefix, in order, of the file
      from `start`; success means exactly `sendLen` bytes; no write leaves more than the back-pressure
      threshold plus one block in the buffer; and with nothing going wrong the transfer succeeds. */
  method SendLoop(file: seq<Byte>, start: nat, sendLen: int, buffered: nat, env: Env)
    returns (success: bool, written: seq<Byte>, levels: seq<nat>)
    requires sendLen > 0
    ensures success <==> AllSent(file, env, Point(start, sendLen, buffered, 0))
    ensures PrefixFrom(written, file, start) && |written| <= sendLen
    ensures success ==> start + sendLen <= |file| && written == file[start..start + sendLen]
    ensures forall i :: 0 <= i < |levels| ==> levels[i] <= BACKPRESSURE + CHUNK_SIZE
    ensures Healthy(env, buffered) && start + sendLen <= |file| ==> success
  {
    ghost var all := AllSentIsLawful(file, env, Point(start, sendLen, buffered, 0), buffered);
    var remaining;
    remaining, written, levels := Rounds(file, start, sendLen, buffered, env, all);
    success := remaining == 0;
  }

  // ---- Exactly when the loop succeeds -------------------------------------------------------

  /** How much the socket has drained before the n-th observation from `t` on. */
  function DrainedBy(env: Env, t: nat, n: nat): nat
  {
    if n == 0 then 0 else DrainedBy(env, t, n - 1) + env.drained(t + n - 1)
  }

  lemma {:induction false} LevelIs(buffered: nat, env: Env, t: nat, n: nat)
    ensures LevelAt(buffered, env, t, n)
         == if buffered <= DrainedBy(env, t, n) then 0 else buffered - DrainedBy(env, t, n)
  {
    if n > 0 { LevelIs(buffered, env, t, n - 1); }
  }

  /** A round that goes well, in the loop's own terms: the first of at most 6000 looks that finds no more
      than 4 MiB in the buffer is the n-th, all of them find the writer connected, a block of 256 KiB or
      all that remains can be read, its write is not refused, and the writer is still connected. */
  ghost predicate CleanRound(file: seq<Byte>, env: Env, p: Point, n: nat)
  {
    var block := if p.remaining < 262144 then p.remaining else 262144;
    && 1 <= n <= 6000
    && p.level <= 4194304 + DrainedBy(env, p.t, n)
    && (forall j :: 1 <= j < n ==> p.level > 4194304 + DrainedBy(env, p.t, j))
    && (forall t :: p.t <= t < p.t + n ==> env.connected(t))
    && p.pos + block <= |file| && env.available(p.t + n) >= block
    && env.reply(p.t + n) >= 0 && env.connected(p.t + n)
  }

  function AfterRound(env: Env, p: Point, n: nat): Point
    requires p.remaining > 0
  {
    var block := if p.remaining < 262144 then p.remaining else 262144;
    var level := if p.level <= DrainedBy(env, p.t, n) then 0 else p.level - DrainedBy(env, p.t, n);
    Point(p.pos + block, p.remaining - block, level + block, p.t + n + 1)
  }

  /** Round after round goes well until nothing remains; `ns` says how often each one looks. */
  ghost predicate CleanRounds(file: seq<Byte>, env: Env, p: Point, ns: seq<nat>)
    decreases |ns|
  {
    if p.remaining <= 0 then ns == []
    else ns != [] && CleanRound(file, env, p, ns[0]) && CleanRounds(file, env, AfterRound(env, p, ns[0]), ns[1..])
  }

  lemma CleanIff(file: seq<Byte>, env: Env, p: Point, n: nat)
    requires p.remaining > 0
    ensures CleanRound(file, env, p, n) <==> Looks(p.level, env, p.t, n) && BlockSent(file, env, p, n)
    ensures n > 0 ==> AfterRound(env, p, n) == Next(env, p, n)
  {
    LevelIs(p.level, env, p.t, n);
    forall j: nat ensures LevelAt(p.level, env, p.t, j) > BACKPRESSURE
                     <==> p.level > 4194304 + DrainedBy(env, p.t, j) {
      LevelIs(p.level, env, p.t, j);
    }
    if CleanRound(file, env, p, n) {
      forall j | 1 <= j < n ensures MustWait(p.level, env, p.t, j) { assert env.connected(p.t + j - 1); }
    }
    if Looks(p.level, env, p.t, n) && BlockSent(file, env, p, n) {
      forall t | p.t <= t < p.t + n ensures env.connected(t) {
        if t < p.t + n - 1 { assert MustWait(p.level, env, p.t, t - p.t + 1); }
      }
      forall j | 1 <= j < n ensures p.level > 4194304 + DrainedBy(env, p.t, j) {
        assert MustWait(p.level, env, p.t, j);
      }
    }
  }

  ghost predicate GoesWell(file: seq<Byte>, env: Env, p: Point) { exists ns: seq<nat> :: CleanRounds(file, env, p, ns) }

  /** The transfer succeeds exactly if its rounds go well one after the other: nothing else makes it fail,
      and each of these failures does. */
  lemma SentIffCleanRounds(file: seq<Byte>, env: Env, p: Point)
    ensures AllSent(file, env, p) <==> GoesWell(file, env, p)
  {
    if AllSent(file, env, p) {
      var ns := SentIsClean(file, env, p);
      assert CleanRounds(file, env, p, ns);
    } else {
      forall ns: seq<nat> ensures !CleanRounds(file, env, p, ns) {
        if CleanRounds(file, env, p, ns) { CleanIsSent(file, env, p, ns); }
      }
    }
  }

  lemma {:induction false} SentIsClean(file: seq<Byte>, env: Env, p: Point) returns (ns: seq<nat>)
    requires AllSent(file, env, p)
    ensures CleanRounds(file, env, p, ns)
    decreases p.remaining
  {
    if p.remaining <= 0 {
      ns := [];
    } else {
      var n := LooksOf(p.level, env, p.t);
      SentMeansClean(file, env, p, n);
      var rest := SentIsClean(file, env, AfterRound(env, p, n));
      ns := [n] + rest;
      assert ns[1..] == rest;
    }
  }

  lemma {:induction false} CleanIsSent(file: seq<Byte>, env: Env, p: Point, ns: seq<nat>)
    requires CleanRounds(file, env, p, ns)
    ensures AllSent(file, env, p)
    decreases |ns|
  {
    if p.remaining > 0 {
      CleanIsSent(file, env, AfterRound(env, p, ns[0]), ns[1..]);
      CleanMeansSent(file, env, p, ns[0]);
    }
  }

  lemma CleanMeansSent(file: seq<Byte>, env: Env, p: Point, n: nat)
    requires p.remaining > 0 && CleanRound(file, env, p, n) && AllSent(file, env, AfterRound(env, p, n))
    ensures AllSent(file, env, p)
  {
    CleanIff(file, env, p, n);
    RoundDecides(file, env, p, n);
  }

  lemma SentMeansClean(file: seq<Byte>, env: Env, p: Point, n: nat)
    requires p.remaining > 0 && AllSent(file, env, p) && n == LooksOf(p.level, env, p.t)
    ensures CleanRound(file, env, p, n) && AllSent(file, env, AfterRound(env, p, n))
  {
    var m := SomeLooks(p.level, env, p.t);
    CleanIff(file, env, p, n);
  }

  /** Every wait comes to an end. */
  lemma SomeLooks(level: nat, env: Env, t: nat) returns (n: nat)
    ensures Looks(level, env, t, n)
  {
    n := 1;
    while n < MAX_LOOKS && MustWait(level, env, t, n)
      invariant 1 <= n <= MAX_LOOKS
      invariant forall j :: 1 <= j < n ==> MustWait(level, env, t, j)
    {
      n := n + 1;
    }
  }
}

/** The 64-bit id generator: a stateful allocator over a stream of clock readings. */
module Snowflake {
  import opened Bits

  const EPOCH: int := 946684800000
  const MAX_SEQUENCE: nat := 4095
  const MAX_WAIT: nat := 5
  const TWO63: int := 0x8000_0000_0000_0000
  const TWO64: int := 0x1_0000_0000_0000_0000

  /** The n-th reading of the clock, in milliseconds. */
  type Clock = nat -> int

  // ---- Packing ------------------------------------------------------------------------------

  /** The 64-bit pattern of an integer, and the signed integer of a pattern. */
  function Pattern(x: int): (u: nat)
    ensures u < TWO64
  {
    x % TWO64
  }

  function Signed(u: nat): int { if u < TWO63 then u else u - TWO64 }

  function Pack(ts: int, dc: nat, worker: nat, sequence: nat): int
  {
    Signed(Or(Or(Or(Pattern((ts - EPOCH) * 4194304), Shl(dc, 17)), Shl(worker, 12)), sequence))
  }

  predicate ValidIds(dc: int, worker: int) { 0 <= dc <= 31 && 0 <= worker <= 31 }

  lemma ShiftConstants()
    ensures Pow2(12) == 4096 && Pow2(17) == 131072 && Pow2(22) == 4194304 && Pow2(42) * 4194304 == TWO64
  {
    assert Pow2(5) == 32;
    Pow2Add(4, 8);
    Pow2Add(5, 12);
    Pow2Add(5, 17);
    Pow2Add(10, 32);
    Pow2Add(16, 16);
    assert Pow2(10) == 1024 && Pow2(16) == 65536;
  }

  /** The time field: the low 42 bits of the milliseconds since the epoch. */
  function TimeField(ts: int): (f: nat) { (ts - EPOCH) % 4398046511104 }

  lemma ShiftedPattern(x: int)
    ensures (x * 4194304) % TWO64 == (x % 4398046511104) * 4194304
  {
    var q, r := x / 4398046511104, x % 4398046511104;
    assert x == q * 4398046511104 + r;
    assert x * 4194304 == q * TWO64 + r * 4194304;
    DivModUnique(x * 4194304, TWO64, q, r * 4194304);
  }

  function FieldSum(f: nat, dc: nat, worker: nat, sequence: nat): nat
  {
    f * 4194304 + dc * 131072 + worker * 4096 + sequence
  }

  /** OR-ing the shifted fields adds them, for every timestamp. */
  lemma PackIsSum(ts: int, dc: nat, worker: nat, sequence: nat)
    requires ValidIds(dc, worker) && sequence <= MAX_SEQUENCE
    ensures Pack(ts, dc, worker, sequence) == Signed(FieldSum(TimeField(ts), dc, worker, sequence))
    ensures FieldSum(TimeField(ts), dc, worker, sequence) < TWO64
  {
    ShiftedPattern(ts - EPOCH);
    OrFields(TimeField(ts), dc, worker, sequence);
  }

  lemma OrFields(f: nat, dc: nat, worker: nat, sequence: nat)
    requires ValidIds(dc, worker) && sequence <= MAX_SEQUENCE && f < 4398046511104
    ensures Or(Or(Or(f * 4194304, Shl(dc, 17)), Shl(worker, 12)), sequence) == FieldSum(f, dc, worker, sequence)
    ensures FieldSum(f, dc, worker, sequence) < TWO64
  {
    OrDatacenter(f, dc);
    OrWorker(f, dc, worker);
    var high := f * 1024 + dc * 32 + worker;
    assert high * 4096 == f * 4194304 + dc * 131072 + worker * 4096;
    OrSequence(high, sequence);
  }

  lemma OrDatacenter(f: nat, dc: nat)
    requires dc <= 31
    ensures Or(f * 4194304, Shl(dc, 17)) == f * 4194304 + dc * 131072
  {
    ShiftConstants();
    OrDisjoint(f, dc * 131072, 22);
  }

  lemma OrWorker(f: nat, dc: nat, worker: nat)
    requires worker <= 31
    ensures Or(f * 4194304 + dc * 131072, Shl(worker, 12)) == f * 4194304 + dc * 131072 + worker * 4096
  {
    ShiftConstants();
    OrDisjoint(f * 32 + dc, worker * 4096, 17);
    assert Shl(f * 32 + dc, 17) == f * 4194304 + dc * 131072;
  }

  lemma OrSequence(high: nat, sequence: nat)
    requires sequence <= MAX_SEQUENCE
    ensures Or(high * 4096, sequence) == high * 4096 + sequence
  {
    ShiftConstants();
    OrDisjoint(high, sequence, 12);
  }

  /** Every field can be read back from the id. */
  lemma FieldsRecoverable(ts: int, dc: nat, worker: nat, sequence: nat)
    requires ValidIds(dc, worker) && sequence <= MAX_SEQUENCE
    ensures var u := Pattern(Pack(ts, dc, worker, sequence));
      && u % 4096 == sequence && (u / 4096) % 32 == worker
      && (u / 131072) % 32 == dc && u / 4194304 == TimeField(ts)
  {
    PackIsSum(ts, dc, worker, sequence);
    var f := TimeField(ts);
    var u := FieldSum(f, dc, worker, sequence);
    assert Pattern(Pack(ts, dc, worker, sequence)) == u;
    DivModUnique(u, 4096, f * 1024 + dc * 32 + worker, sequence);
    DivModUnique(f * 1024 + dc * 32 + worker, 32, f * 32 + dc, worker);
    DivModUnique(u, 131072, f * 32 + dc, worker * 4096 + sequence);
    DivModUnique(f * 32 + dc, 32, f, dc);
    DivModUnique(u, 4194304, f, dc * 131072 + worker * 4096 + sequence);
  }

  /** The clock range in which ids are positive and ordered like their timestamps. */
  predicate InRange(ts: int) { EPOCH <= ts < EPOCH + 2199023255552 }

  lemma PackInRange(ts: int, dc: nat, worker: nat, sequence: nat)
    requires ValidIds(dc, worker) && sequence <= MAX_SEQUENCE && InRange(ts)
    ensures Pack(ts, dc, worker, sequence) == FieldSum(ts - EPOCH, dc, worker, sequence)
  {
    PackIsSum(ts, dc, worker, sequence);
    DivModUnique(ts - EPOCH, 4398046511104, 0, ts - EPOCH);
  }

  // ---- One call -----------------------------------------------------------------------------

  datatype State = State(dc: nat, worker: nat, sequence: nat, last: int)

  /** What a call decides: the time and sequence number of the id it returns, or a failure, which
      the source returns as 0, for an overflow that could not be waited out. */
  datatype Outcome = Issued(ts: int, sequence: nat) | Failed

  function IdOf(dc: nat, worker: nat, o: Outcome): int
  {
    if o.Issued? then Pack(o.ts, dc, worker, o.sequence) else 0
  }

  /** Waiting for the next millisecond after `count` of at most five attempts: the time that ended
      the wait, or `last` or less if it failed, and the next clock reading. */
  function Wait(last: int, clock: Clock, t: nat, ts: int, count: nat): (r: (int, nat))
    requires count <= MAX_WAIT
    ensures t <= r.1 <= t + (MAX_WAIT - count)
    decreases MAX_WAIT - count
  {
    if ts <= last && count < MAX_WAIT then
      if clock(t) < last then (clock(t), t + 1)
      else Wait(last, clock, t + 1, clock(t), count + 1)
    else (ts, t)
  }

  lemma WaitStep(last: int, clock: Clock, t: nat, ts: int, count: nat)
    requires ts <= last && count < MAX_WAIT
    ensures Wait(last, clock, t, ts, count)
         == if clock(t) < last then (clock(t), t + 1) else Wait(last, clock, t + 1, clock(t), count + 1)
  {
  }

  lemma WaitDone(last: int, clock: Clock, t: nat, ts: int, count: nat)
    requires count <= MAX_WAIT && !(ts <= last && count < MAX_WAIT)
    ensures Wait(last, clock, t, ts, count) == (ts, t)
  {
  }

  function NextSequence(s: State): nat { And(s.sequence + 1, MAX_SEQUENCE) }

  function Issue(s: State, ts: int, sequence: nat): (State, Outcome)
  {
    (s.(sequence := sequence, last := ts), Issued(ts, sequence))
  }

  function Next(s: State, clock: Clock, t: nat): (r: (State, Outcome, nat))
    ensures t < r.2 <= t + 6
  {
    var ts := clock(t);
    if ts == s.last then
      if NextSequence(s) == 0 then
        var w := Wait(s.last, clock, t + 1, ts, 0);
        if w.0 <= s.last then (s.(sequence := 0), Failed, w.1)
        else var i := Issue(s, w.0, 0); (i.0, i.1, w.1)
      else var i := Issue(s, ts, NextSequence(s)); (i.0, i.1, t + 1)
    else var i := Issue(s, ts, 0); (i.0, i.1, t + 1)
  }

  /** The generator after n calls, and the number of its next clock reading. */
  function After(dc: nat, worker: nat, clock: Clock, n: nat): (r: (State, nat))
    ensures r.0.dc == dc && r.0.worker == worker
  {
    if n == 0 then (State(dc, worker, 0, -1), 0)
    else
      var a := After(dc, worker, clock, n - 1);
      var r := Next(a.0, clock, a.1);
      (r.0, r.2)
  }

  /** What call number i (from 0) decides. */
  function Call(dc: nat, worker: nat, clock: Clock, i: nat): Outcome
  {
    var a := After(dc, worker, clock, i);
    Next(a.0, clock, a.1).1
  }

  // ---- The generator as an object -----------------------------------------------------------

  class Generator {
    const dc: nat
    const worker: nat
    var sequence: nat
    var last: int

    function View(): State
      reads this
    {
      State(dc, worker, sequence, last)
    }

    constructor (dc: nat, worker: nat)
      requires ValidIds(dc, worker)
      ensures View() == State(dc, worker, 0, -1)
    {
      this.dc, this.worker := dc, worker;
      sequence, last := 0, -1;
    }

    /** The polling loop: it also ends on a time before the last one, which the caller rejects. */
    method AwaitNext(clock: Clock, t: nat) returns (timestamp: int, t': nat)
      ensures (timestamp, t') == Wait(last, clock, t, last, 0)
    {
      timestamp := last;
      t' := t;
      var waitCount := 0;
      while timestamp <= last && waitCount < MAX_WAIT
        invariant waitCount <= MAX_WAIT
        invariant Wait(last, clock, t', timestamp, waitCount) == Wait(last, clock, t, last, 0)
        decreases MAX_WAIT - waitCount
      {
        WaitStep(last, clock, t', timestamp, waitCount);
        timestamp := clock(t');
        t' := t' + 1;
        waitCount := waitCount + 1;
        if timestamp < last { return; }
      }
      WaitDone(last, clock, t', timestamp, waitCount);
    }

    /** `t` numbers the next clock reading; each reading is used once. */
    method NextId(clock: Clock, t: nat) returns (id: int, t': nat)
      modifies this
      ensures var r := Next(old(View()), clock, t);
        View() == r.0 && id == IdOf(dc, worker, r.1) && t' == r.2
    {
      var timestamp := clock(t);
      t' := t + 1;
      if timestamp == last {
        sequence := And(sequence + 1, MAX_SEQUENCE);
        if sequence == 0 {
          timestamp, t' := AwaitNext(clock, t');
          if timestamp <= last { return 0, t'; }
        }
      } else {
        sequence := 0;
      }
      last := timestamp;
      id := Pack(timestamp, dc, worker, sequence);
    }
  }

  /** The constructor's argument check: null stands for the exception. */
  method Create(dc: int, worker: int) returns (g: Generator?)
    ensures g != null <==> ValidIds(dc, worker)
    ensures g != null ==> fresh(g) && g.View() == State(dc, worker, 0, -1)
  {
    if dc > 31 || dc < 0 { return null; }
    if worker > 31 || worker < 0 { return null; }
    g := new Generator(dc, worker);
  }
}

/** The ring buffer object itself, called by one thread at a time.

    `Push`, `Pop`, `Size`, `Empty` and `Clear` are specified by the queue's contents and are tied to
    the protocol: each leaves the shared members exactly as its atomic steps, run back to back, do. */
module SpscQueue {
  import opened Bits
  import opened SpscProtocol

  // ---- Capacity -----------------------------------------------------------------------------

  predicate IsPowerOfTwo(n: nat) { n != 0 && And(n, n - 1) == 0 }

  /** `result <<= 1` on a 64-bit word. */
  function Doubled(x: nat): nat { (2 * x) % WORD }

  /** The value of `result` after k iterations of the loop. */
  function Doublings(k: nat): nat
  {
    if k == 0 then 1 else Doubled(Doublings(k - 1))
  }

  lemma WordIsPow2()
    ensures Pow2(64) == WORD && Pow2(63) == WORD / 2
  {
    assert Pow2(8) == 256;
    Pow2Add(8, 8);
    assert Pow2(16) == 65536;
    Pow2Add(16, 16);
    assert Pow2(32) == 0x1_0000_0000;
    Pow2Add(32, 32);
    assert Pow2(64) == 2 * Pow2(63);
  }

  lemma {:induction false} DoublingsValue(k: nat)
    ensures Doublings(k) == if k < 64 then Pow2(k) else 0
  {
    WordIsPow2();
    if k > 0 {
      DoublingsValue(k - 1);
      if k < 64 {
        Pow2Monotone(k, 64);
        DoubledBelow(Pow2(k - 1));
      } else if k == 64 {
        DivModUnique(WORD, WORD, 1, 0);
      } else {
        DoubledBelow(0);
      }
    }
  }

  lemma DoubledBelow(x: nat)
    requires 2 * x < WORD
    ensures Doubled(x) == 2 * x
  {
    DivModUnique(2 * x, WORD, 0, 2 * x);
  }

  /** The doubling loop reaches n, so construction terminates, exactly for n up to 2^63: past that
      the shift wraps to 0 and no iterate is ever large enough. */
  lemma DoublingReachesIff(n: nat)
    requires 0 < n < WORD
    ensures (exists k: nat :: Doublings(k) >= n) <==> n <= Pow2(63)
  {
    WordIsPow2();
    DoublingsValue(63);
    if k: nat :| Doublings(k) >= n {
      DoublingsValue(k);
      if k < 63 { Pow2Monotone(k, 63); }
    }
  }

  method NextPowerOfTwo(n: nat) returns (result: nat)
    requires n <= Pow2(63)
    ensures IsPow2(result) && result >= n
    ensures forall k: nat :: Pow2(k) >= n ==> result <= Pow2(k)
  {
    if n == 0 {
      assert Pow2(0) == 1;
      return 1;
    }
    if IsPowerOfTwo(n) {
      AndPredecessor(n);
      return n;
    }
    result := 1;
    ghost var k: nat := 0;
    WordIsPow2();
    while result < n
      invariant result == Pow2(k) && k <= 63
      invariant k > 0 ==> Pow2(k - 1) < n
      decreases n - result
    {
      if k == 63 { assert false; }
      Pow2Monotone(k + 1, 64);
      assert Doubled(result) == 2 * result;
      result := Doubled(result);
      k := k + 1;
    }
    LeastPower(n, k);
  }

  lemma LeastPower(n: nat, k: nat)
    requires k > 0 ==> Pow2(k - 1) < n
    ensures forall j: nat :: Pow2(j) >= n ==> Pow2(k) <= Pow2(j)
  {
    forall j: nat | Pow2(j) >= n ensures Pow2(k) <= Pow2(j) {
      if j < k {
        if j < k - 1 { Pow2Monotone(j, k - 1); }
      } else if k < j {
        Pow2Monotone(k, j);
      }
    }
  }

  // ---- A call that nothing interleaves with -------------------------------------------------

  function PushSchedule<T>(item: T): seq<Action<T>>
  {
    [CallPush(item), Produce, Produce, Produce, Produce, Produce]
  }

  function PopSchedule<T>(residue: T): seq<Action<T>>
  {
    [CallPop, Consume(residue), Consume(residue), Consume(residue), Consume(residue), Consume(residue)]
  }

  lemma ExecSnoc<T>(s: State<T>, schedule: seq<Action<T>>, a: Action<T>)
    requires |s.sh.buf| == s.sh.cap
    ensures Exec(s, schedule + [a]) == Step(Exec(s, schedule), a)
  {
    assert (schedule + [a])[..|schedule|] == schedule;
  }

  lemma ExecOne<T>(s: State<T>, a: Action<T>)
    requires |s.sh.buf| == s.sh.cap
    ensures Exec(s, [a]) == Step(s, a)
  {
    ExecSnoc(s, [], a);
    assert [] + [a] == [a];
  }

  lemma ExecTwoMore<T>(s: State<T>, front: seq<Action<T>>, schedule: seq<Action<T>>, b: Action<T>)
    requires |s.sh.buf| == s.sh.cap && schedule == front + [b, b]
    ensures Exec(s, schedule) == Step(Step(Exec(s, front), b), b)
  {
    ExecSnoc(s, front, b);
    ExecSnoc(s, front + [b], b);
    assert front + [b] + [b] == schedule;
  }

  lemma ExecSix<T>(s: State<T>, a: Action<T>, b: Action<T>)
    requires |s.sh.buf| == s.sh.cap
    ensures Exec(s, [a, b, b, b, b, b]) == Step(Step(Step(Step(Step(Step(s, a), b), b), b), b), b)
  {
    ExecOne(s, a);
    ExecTwoMore(s, [a], [a, b, b], b);
    ExecTwoMore(s, [a, b, b], [a, b, b, b, b], b);
    ExecSnoc(s, [a, b, b, b, b], b);
    assert [a, b, b, b, b] + [b] == [a, b, b, b, b, b];
  }

  ghost function PushAlone<T>(sh: Shared<T>, item: T): State<T>
    requires |sh.buf| == sh.cap
  {
    Exec(Quiet(sh), PushSchedule(item))
  }

  ghost function PopAlone<T>(sh: Shared<T>, residue: T): State<T>
    requires |sh.buf| == sh.cap
  {
    Exec(Quiet(sh), PopSchedule(residue))
  }

  function Contents<T>(sh: Shared<T>): seq<T>
    requires WellFormed(sh)
  {
    Slots(sh.buf, sh.readPos, Held(sh))
  }

  /** Undisturbed, the producer's steps accept the item unless capacity - 1 items are held. */
  lemma PushAloneMeans<T>(sh: Shared<T>, item: T)
    requires WellFormed(sh)
    ensures var s := PushAlone(sh, item);
      var next := Wrap(sh.writePos + 1, sh.cap);
      && s.p.PIdle? && s.c.CIdle?
      && (if next == sh.readPos then
            s.accepted == [] && s.rejected == 1 && s.sh == sh.(dropCount := Bump(sh.dropCount))
          else
            && s.accepted == [item] && s.rejected == 0
            && s.sh == sh.(buf := sh.buf[sh.writePos := item], writePos := next,
                           pushCount := Bump(sh.pushCount)))
  {
    var s0 := Quiet(sh);
    ExecSix(s0, CallPush(item), Produce);
    NextPosWraps(sh.writePos, sh.cap);
    var s3 := Step(Step(Step(s0, CallPush(item)), Produce), Produce);
    assert s3 == s0.(p := PGotRead(item, sh.writePos, sh.readPos));
    PushTail(s3, item);
  }

  lemma PushTail<T>(s: State<T>, item: T)
    requires WellFormed(s.sh) && s == Quiet(s.sh).(p := PGotRead(item, s.sh.writePos, s.sh.readPos))
    ensures var r, next := Step(Step(Step(s, Produce), Produce), Produce), NextPos(s.sh.writePos, s.sh.mask);
      && r.p.PIdle? && r.c.CIdle?
      && (if next == s.sh.readPos then
            r.accepted == [] && r.rejected == 1 && r.sh == s.sh.(dropCount := Bump(s.sh.dropCount))
          else
            && r.accepted == [item] && r.rejected == 0
            && r.sh == s.sh.(buf := s.sh.buf[s.sh.writePos := item], writePos := next,
                             pushCount := Bump(s.sh.pushCount)))
  {
  }

  lemma PopAloneMeans<T>(sh: Shared<T>, residue: T)
    requires WellFormed(sh)
    ensures var s := PopAlone(sh, residue);
      && s.p.PIdle? && s.c.CIdle?
      && (if sh.writePos == sh.readPos then s.returned == [] && s.sh == sh
          else
            && s.returned == [sh.buf[sh.readPos]]
            && s.sh == sh.(buf := sh.buf[sh.readPos := residue],
                           readPos := Wrap(sh.readPos + 1, sh.cap), popCount := Bump(sh.popCount)))
  {
    var s0 := Quiet(sh);
    ExecSix(s0, CallPop, Consume(residue));
    NextPosWraps(sh.readPos, sh.cap);
    var s3 := Step(Step(Step(s0, CallPop), Consume(residue)), Consume(residue));
    assert s3 == s0.(c := CGotWrite(sh.readPos, sh.writePos));
    PopTail(s3, residue);
  }

  lemma PopTail<T>(s: State<T>, residue: T)
    requires WellFormed(s.sh) && s == Quiet(s.sh).(c := CGotWrite(s.sh.readPos, s.sh.writePos))
    ensures var a := Consume(residue);
      var r := Step(Step(Step(s, a), a), a);
      && r.p.PIdle? && r.c.CIdle?
      && (if s.sh.writePos == s.sh.readPos then r.returned == [] && r.sh == s.sh
          else
            && r.returned == [s.sh.buf[s.sh.readPos]]
            && r.sh == s.sh.(buf := s.sh.buf[s.sh.readPos := residue],
                             readPos := NextPos(s.sh.readPos, s.sh.mask), popCount := Bump(s.sh.popCount)))
  {
  }

  lemma ContentsAfterPush<T>(sh: Shared<T>, item: T)
    requires WellFormed(sh)
    ensures var s := PushAlone(sh, item);
      && WellFormed(s.sh) && s.sh.cap == sh.cap
      && (s.accepted == [item] <==> |Contents(sh)| < sh.cap - 1)
      && Contents(s.sh) == Contents(sh) + s.accepted
  {
    PushAloneMeans(sh, item);
    if Wrap(sh.writePos + 1, sh.cap) != sh.readPos {
      SlotsUntouched(sh.buf, sh.readPos, Held(sh), sh.writePos, item);
      SlotsAppend(sh.buf[sh.writePos := item], sh.readPos, Held(sh));
    }
  }

  lemma ContentsAfterPop<T>(sh: Shared<T>, residue: T)
    requires WellFormed(sh)
    ensures var s := PopAlone(sh, residue);
      && WellFormed(s.sh) && s.sh.cap == sh.cap
      && (s.returned == [] <==> Contents(sh) == [])
      && Contents(sh) == s.returned + Contents(s.sh)
  {
    PopAloneMeans(sh, residue);
    if sh.writePos != sh.readPos {
      SlotsHead(sh.buf, sh.readPos, Held(sh));
      SlotsUntouched(sh.buf, Wrap(sh.readPos + 1, sh.cap), Held(sh) - 1, sh.readPos, residue);
    }
  }

  // ---- The object ---------------------------------------------------------------------------

  class Queue<T(0)> {
    var buffer: array<T>
    var capacity: nat
    var mask: nat
    var writePos: nat
    var readPos: nat
    var pushCount: nat
    var popCount: nat
    var dropCount: nat

    ghost function View(): Shared<T>
      reads this, buffer
    {
      Shared(capacity, mask, buffer[..], writePos, readPos, pushCount, popCount, dropCount)
    }

    ghost predicate Valid()
      reads this, buffer
    {
      WellFormed(View())
    }

    constructor (n: nat)
      requires n <= Pow2(63)
      ensures Valid() && fresh(buffer) && Fresh(View()) && Contents(View()) == []
      ensures capacity >= n && forall k: nat :: Pow2(k) >= n ==> capacity <= Pow2(k)
    {
      var c := NextPowerOfTwo(n);
      capacity := c;
      mask := c - 1;
      buffer := new T[c];
      writePos, readPos := 0, 0;
      pushCount, popCount, dropCount := 0, 0, 0;
    }

    method Push(item: T) returns (ok: bool)
      requires Valid()
      modifies this, buffer
      ensures Valid() && buffer == old(buffer) && capacity == old(capacity)
      ensures ok == (|old(Contents(View()))| < capacity - 1)
      ensures Contents(View()) == if ok then old(Contents(View())) + [item] else old(Contents(View()))
      ensures View() == PushAlone(old(View()), item).sh
    {
      ghost var sh := View();
      ContentsAfterPush(sh, item);
      PushAloneMeans(sh, item);
      NextPosWraps(writePos, capacity);
      var currentWrite := writePos;
      var nextWrite := And(currentWrite + 1, mask);
      var currentRead := readPos;
      if nextWrite == currentRead {
        dropCount := Bump(dropCount);
        return false;
      }
      buffer[currentWrite] := item;
      writePos := nextWrite;
      pushCount := Bump(pushCount);
      assert View() == PushAlone(sh, item).sh;
      return true;
    }

    /** An absent result is the source's `false`; a moved-from slot may hold anything. */
    method Pop() returns (ok: bool, item: T)
      requires Valid()
      modifies this, buffer
      ensures Valid() && buffer == old(buffer) && capacity == old(capacity)
      ensures ok == (old(Contents(View())) != [])
      ensures ok ==> old(Contents(View())) == [item] + Contents(View())
      ensures !ok ==> View() == old(View())
      ensures exists residue :: View() == PopAlone(old(View()), residue).sh
    {
      ghost var sh := View();
      var residue: T := *;
      ContentsAfterPop(sh, residue);
      PopAloneMeans(sh, residue);
      NextPosWraps(readPos, capacity);
      item := *;
      var currentRead := readPos;
      var currentWrite := writePos;
      if currentRead == currentWrite {
        assert View() == PopAlone(sh, residue).sh;
        return false, item;
      }
      item := buffer[currentRead];
      buffer[currentRead] := residue;
      var nextRead := And(currentRead + 1, mask);
      readPos := nextRead;
      popCount := Bump(popCount);
      assert View() == PopAlone(sh, residue).sh;
      ok := true;
    }

    method Empty() returns (b: bool)
      requires Valid()
      ensures b == (Contents(View()) == [])
    {
      var currentRead := readPos;
      var currentWrite := writePos;
      b := currentRead == currentWrite;
    }

    method Size() returns (n: int)
      requires Valid()
      ensures n == |Contents(View())|
    {
      var currentRead := readPos;
      var currentWrite := writePos;
      n := if currentWrite >= currentRead then currentWrite - currentRead
           else (capacity - currentRead) + currentWrite;
    }

    /** With the producer stopped, popping until it fails terminates and empties the queue. */
    method Clear()
      requires Valid()
      modifies this, buffer
      ensures Valid() && buffer == old(buffer) && capacity == old(capacity)
      ensures Contents(View()) == []
    {
      var ok, item := Pop();
      while ok
        invariant Valid() && buffer == old(buffer) && capacity == old(capacity)
        invariant !ok ==> Contents(View()) == []
        decreases |Contents(View())|, ok
      {
        ok, item := Pop();
      }
    }
  }
}

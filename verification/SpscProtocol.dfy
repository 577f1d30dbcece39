/** The single-producer/single-consumer ring buffer as a protocol over atomic steps.

    One producer thread, one consumer thread and any third-party observer interleave freely. Every
    step is one access to shared memory; what a thread loaded earlier stays in its own locals and
    may be stale by the time it is used. A schedule is any sequence of actions. */
module SpscProtocol {
  import opened Bits

  const WORD: nat := 0x1_0000_0000_0000_0000

  /** The members of the queue object that threads share. */
  datatype Shared<T> = Shared(
    cap: nat, mask: nat, buf: seq<T>, writePos: nat, readPos: nat,
    pushCount: nat, popCount: nat, dropCount: nat)

  /** Where a thread stands inside its current call, with the values it has loaded. */
  datatype Producer<T> =
    | PIdle
    | PStart(item: T)
    | PGotWrite(item: T, w: nat)
    | PGotRead(item: T, w: nat, r: nat)
    | PWrote(item: T, next: nat)
    | PPublished(item: T)
    | PSizing(r: nat)
    | PSized(r: nat, w: nat)

  datatype Consumer<T> =
    | CIdle
    | CStart
    | CGotRead(r: nat)
    | CGotWrite(r: nat, w: nat)
    | CTook(r: nat, item: T)
    | CPublished(item: T)
    | CSizing(r: nat)
    | CSized(r: nat, w: nat)

  datatype Observer = OIdle | OSizing(r: nat) | OSized(r: nat, w: nat)

  /** `pushed`/`popped` record publication of a position; `accepted`/`returned` record what calls
      that returned true were given or gave back. `promised` says the consumer's latest `size` or
      `empty` call reported a non-empty queue and no `pop` has completed since. */
  datatype State<T> = State(
    sh: Shared<T>, p: Producer<T>, c: Consumer<T>, o: Observer, promised: bool,
    pushed: seq<T>, popped: seq<T>, accepted: seq<T>, returned: seq<T>,
    rejected: nat)

  datatype Action<T> =
    | CallPush(item: T)
    | CallPop
    | ProducerSize
    | ConsumerSize
    | ObserverSize
    | Produce
    | Consume(residue: T)
    | Observe

  // ---- Local computations of the code -------------------------------------------------------

  function NextPos(pos: nat, mask: nat): nat { And(pos + 1, mask) }

  function SizeOf(cap: nat, r: nat, w: nat): int
  {
    if w >= r then w - r else cap - r + w
  }

  function Bump(counter: nat): nat { if counter + 1 == WORD then 0 else counter + 1 }

  // ---- Steps --------------------------------------------------------------------------------

  function ProducerStep<T>(s: State<T>): State<T>
    requires |s.sh.buf| == s.sh.cap
  {
    match s.p
    case PIdle => s
    case PStart(x) => s.(p := PGotWrite(x, s.sh.writePos))
    case PGotWrite(x, w) => s.(p := PGotRead(x, w, s.sh.readPos))
    case PGotRead(x, w, r) =>
      if NextPos(w, s.sh.mask) == r then
        s.(p := PIdle, rejected := s.rejected + 1, sh := s.sh.(dropCount := Bump(s.sh.dropCount)))
      else if w < s.sh.cap then
        s.(p := PWrote(x, NextPos(w, s.sh.mask)), sh := s.sh.(buf := s.sh.buf[w := x]))
      else s
    case PWrote(x, next) =>
      s.(p := PPublished(x), sh := s.sh.(writePos := next), pushed := s.pushed + [x])
    case PPublished(x) =>
      s.(p := PIdle, sh := s.sh.(pushCount := Bump(s.sh.pushCount)), accepted := s.accepted + [x])
    case PSizing(r) => s.(p := PSized(r, s.sh.writePos))
    case PSized(_, _) => s.(p := PIdle)
  }

  function ConsumerStep<T>(s: State<T>, residue: T): State<T>
    requires |s.sh.buf| == s.sh.cap
  {
    match s.c
    case CIdle => s
    case CStart => s.(c := CGotRead(s.sh.readPos))
    case CGotRead(r) => s.(c := CGotWrite(r, s.sh.writePos))
    case CGotWrite(r, w) =>
      if r == w then s.(c := CIdle, promised := false)
      else if r < s.sh.cap then
        s.(c := CTook(r, s.sh.buf[r]), sh := s.sh.(buf := s.sh.buf[r := residue]))
      else s
    case CTook(r, x) =>
      s.(c := CPublished(x), sh := s.sh.(readPos := NextPos(r, s.sh.mask)), popped := s.popped + [x])
    case CPublished(x) =>
      s.(c := CIdle, promised := false, sh := s.sh.(popCount := Bump(s.sh.popCount)),
         returned := s.returned + [x])
    case CSizing(r) => s.(c := CSized(r, s.sh.writePos))
    case CSized(r, w) => s.(c := CIdle, promised := s.promised || r != w)
  }

  function Step<T>(s: State<T>, a: Action<T>): (s': State<T>)
    requires |s.sh.buf| == s.sh.cap
    ensures |s'.sh.buf| == s'.sh.cap == s.sh.cap
  {
    match a
    case CallPush(x) => if s.p.PIdle? then s.(p := PStart(x)) else s
    case ProducerSize => if s.p.PIdle? then s.(p := PSizing(s.sh.readPos)) else s
    case Produce => ProducerStep(s)
    case CallPop => if s.c.CIdle? then s.(c := CStart) else s
    case ConsumerSize => if s.c.CIdle? then s.(c := CSizing(s.sh.readPos)) else s
    case Consume(residue) => ConsumerStep(s, residue)
    case ObserverSize => if s.o.OIdle? then s.(o := OSizing(s.sh.readPos)) else s
    case Observe =>
      match s.o {
        case OIdle => s
        case OSizing(r) => s.(o := OSized(r, s.sh.writePos))
        case OSized(_, _) => s.(o := OIdle)
      }
  }

  function Exec<T>(s: State<T>, schedule: seq<Action<T>>): (s': State<T>)
    requires |s.sh.buf| == s.sh.cap
    ensures |s'.sh.buf| == s'.sh.cap == s.sh.cap
  {
    if schedule == [] then s
    else Step(Exec(s, schedule[..|schedule| - 1]), schedule[|schedule| - 1])
  }

  /** A queue nobody is calling, with no history. */
  function Quiet<T>(sh: Shared<T>): State<T>
  {
    State(sh, PIdle, CIdle, OIdle, false, [], [], [], [], 0)
  }

  ghost predicate Fresh<T>(sh: Shared<T>)
  {
    && IsPow2(sh.cap) && sh.mask == sh.cap - 1 && |sh.buf| == sh.cap
    && sh.writePos == sh.readPos == 0
    && sh.pushCount == sh.popCount == sh.dropCount == 0
  }

  // ---- Meaning of the ring ------------------------------------------------------------------

  function Wrap(i: nat, cap: nat): nat
  {
    if i < cap then i else i - cap
  }

  /** `& mask` on a power-of-two capacity is one step around the ring. */
  lemma NextPosWraps(pos: nat, cap: nat)
    requires IsPow2(cap) && pos < cap
    ensures NextPos(pos, cap - 1) == Wrap(pos + 1, cap) < cap
  {
    var k: nat :| cap == Pow2(k);
    assert And(pos + 1, cap - 1) == (pos + 1) % cap by { AndMask(pos + 1, k); }
    if pos + 1 == cap {
      DivModUnique(cap, cap, 1, 0);
    } else {
      DivModUnique(pos + 1, cap, 0, pos + 1);
    }
  }

  function Slots<T>(buf: seq<T>, from: nat, n: nat): (q: seq<T>)
    requires from < |buf| && n <= |buf|
    ensures |q| == n
    ensures forall i :: 0 <= i < n ==> q[i] == buf[Wrap(from + i, |buf|)]
  {
    seq(n, i requires 0 <= i < n => buf[Wrap(from + i, |buf|)])
  }

  /** Position `pos` is one of the `n` slots that start at `from`. */
  predicate Covers(from: nat, n: nat, pos: nat, cap: nat)
  {
    if pos >= from then pos < from + n else pos + cap < from + n
  }

  lemma SlotsUntouched<T>(buf: seq<T>, from: nat, n: nat, pos: nat, x: T)
    requires from < |buf| && n <= |buf| && pos < |buf|
    requires !Covers(from, n, pos, |buf|)
    ensures Slots(buf[pos := x], from, n) == Slots(buf, from, n)
  {
  }

  lemma SlotsAppend<T>(buf: seq<T>, from: nat, n: nat)
    requires from < |buf| && n < |buf|
    ensures Slots(buf, from, n + 1) == Slots(buf, from, n) + [buf[Wrap(from + n, |buf|)]]
  {
  }

  lemma SlotsHead<T>(buf: seq<T>, from: nat, n: nat)
    requires from < |buf| && 0 < n <= |buf|
    ensures Slots(buf, from, n) == [buf[from]] + Slots(buf, Wrap(from + 1, |buf|), n - 1)
  {
  }

  ghost predicate WellFormed<T>(sh: Shared<T>)
  {
    && IsPow2(sh.cap) && sh.mask == sh.cap - 1 && |sh.buf| == sh.cap
    && sh.writePos < sh.cap && sh.readPos < sh.cap
  }

  function Held<T>(sh: Shared<T>): int { SizeOf(sh.cap, sh.readPos, sh.writePos) }

  /** The abstract FIFO queue. An item being moved out is still its head. */
  ghost function Queue<T>(s: State<T>): seq<T>
    requires WellFormed(s.sh)
    requires s.c.CTook? ==> Held(s.sh) >= 1
  {
    if s.c.CTook? then [s.c.item] + Slots(s.sh.buf, Wrap(s.sh.readPos + 1, s.sh.cap), Held(s.sh) - 1)
    else Slots(s.sh.buf, s.sh.readPos, Held(s.sh))
  }

  // ---- Invariant ----------------------------------------------------------------------------

  ghost predicate ProducerInv<T>(s: State<T>)
    requires WellFormed(s.sh)
  {
    var sh := s.sh;
    match s.p
    case PGotWrite(_, w) => w == sh.writePos
    case PGotRead(_, w, r) => w == sh.writePos && r < sh.cap && Held(sh) <= SizeOf(sh.cap, r, w)
    case PWrote(x, next) =>
      next == Wrap(sh.writePos + 1, sh.cap) && Held(sh) + 2 <= sh.cap && sh.buf[sh.writePos] == x
    case PSizing(r) => r < sh.cap && Held(sh) <= SizeOf(sh.cap, r, sh.writePos)
    case PSized(r, w) => r < sh.cap && w == sh.writePos && Held(sh) <= SizeOf(sh.cap, r, w)
    case _ => true
  }

  ghost predicate ConsumerInv<T>(s: State<T>)
    requires WellFormed(s.sh)
  {
    var sh := s.sh;
    && (match s.c
        case CGotRead(r) => r == sh.readPos
        case CGotWrite(r, w) =>
          && r == sh.readPos && w < sh.cap && SizeOf(sh.cap, r, w) <= Held(sh)
          && (s.promised ==> r != w)
        case CTook(r, _) => r == sh.readPos && Held(sh) >= 1
        case CSizing(r) => r == sh.readPos
        case CSized(r, w) => r == sh.readPos && w < sh.cap && SizeOf(sh.cap, r, w) <= Held(sh)
        case _ => true)
    && (s.promised && !s.c.CPublished? ==> Held(sh) >= 1)
  }

  ghost predicate LogInv<T>(s: State<T>)
    requires WellFormed(s.sh)
    requires s.c.CTook? ==> Held(s.sh) >= 1
  {
    && s.pushed == s.popped + Queue(s)
    && s.pushed == s.accepted + (if s.p.PPublished? then [s.p.item] else [])
    && s.popped == s.returned + (if s.c.CPublished? then [s.c.item] else [])
  }

  /** The three counters count calls modulo the word size. */
  ghost predicate CountInv<T>(s: State<T>)
  {
    && s.sh.pushCount == |s.accepted| % WORD
    && s.sh.popCount == |s.returned| % WORD
    && s.sh.dropCount == s.rejected % WORD
  }

  ghost predicate ObserverInv<T>(s: State<T>)
  {
    match s.o
    case OIdle => true
    case OSizing(r) => r < s.sh.cap
    case OSized(r, w) => r < s.sh.cap && w < s.sh.cap
  }

  /** What the positions and the threads' loaded copies satisfy. */
  ghost predicate PosInv<T>(s: State<T>)
  {
    && WellFormed(s.sh) && ProducerInv(s) && ConsumerInv(s) && ObserverInv(s)
  }

  ghost predicate Inv<T>(s: State<T>)
  {
    && PosInv(s) && LogInv(s)
  }

  lemma FreshInv<T>(sh: Shared<T>)
    requires Fresh(sh)
    ensures Inv(Quiet(sh))
  {
  }

  // ---- Every step keeps the positions consistent --------------------------------------------

  /** What the consumer knows stays true while only the producer moves. */
  lemma ConsumerKnowledgeStable<T>(s: State<T>, s': State<T>)
    requires PosInv(s) && WellFormed(s'.sh) && s'.sh.cap == s.sh.cap
    requires s'.c == s.c && s'.promised == s.promised
    requires s'.sh.readPos == s.sh.readPos && Held(s.sh) <= Held(s'.sh)
    ensures ConsumerInv(s')
  {
  }

  /** What the producer knows stays true while only the consumer moves. */
  lemma ProducerKnowledgeStable<T>(s: State<T>, s': State<T>)
    requires PosInv(s) && WellFormed(s'.sh) && s'.sh.cap == s.sh.cap && s'.p == s.p
    requires s'.sh.writePos == s.sh.writePos && Held(s'.sh) <= Held(s.sh)
    requires s.p.PWrote? ==> s'.sh.buf[s.sh.writePos] == s.sh.buf[s.sh.writePos]
    ensures ProducerInv(s')
  {
  }

  lemma ProducerMoves<T>(s: State<T>)
    requires PosInv(s)
    ensures var s' := ProducerStep(s);
      && WellFormed(s'.sh) && s'.sh.readPos == s.sh.readPos && Held(s.sh) <= Held(s'.sh)
  {
    NextPosWraps(s.sh.writePos, s.sh.cap);
  }

  lemma ProducerLearns<T>(s: State<T>)
    requires PosInv(s) && WellFormed(ProducerStep(s).sh)
    ensures ProducerInv(ProducerStep(s))
  {
    NextPosWraps(s.sh.writePos, s.sh.cap);
    match s.p
    case PGotRead(x, w, r) =>
    case _ =>
  }

  lemma ProducerKeepsPositions<T>(s: State<T>)
    requires PosInv(s)
    ensures PosInv(ProducerStep(s))
  {
    ProducerMoves(s);
    ProducerLearns(s);
    ConsumerKnowledgeStable(s, ProducerStep(s));
  }

  lemma ConsumerMoves<T>(s: State<T>, residue: T)
    requires PosInv(s)
    ensures var s' := ConsumerStep(s, residue);
      && WellFormed(s'.sh) && s'.sh.writePos == s.sh.writePos && Held(s'.sh) <= Held(s.sh)
      && (s.p.PWrote? ==> s'.sh.buf[s.sh.writePos] == s.sh.buf[s.sh.writePos])
  {
    NextPosWraps(s.sh.readPos, s.sh.cap);
  }

  lemma ConsumerLearns<T>(s: State<T>, residue: T)
    requires PosInv(s) && WellFormed(ConsumerStep(s, residue).sh)
    ensures ConsumerInv(ConsumerStep(s, residue))
  {
    NextPosWraps(s.sh.readPos, s.sh.cap);
    match s.c
    case CGotRead(_) =>
    case CGotWrite(_, _) =>
    case CTook(_, _) =>
    case CSizing(_) =>
    case CSized(_, _) =>
    case _ =>
  }

  lemma ConsumerKeepsPositions<T>(s: State<T>, residue: T)
    requires PosInv(s)
    ensures PosInv(ConsumerStep(s, residue))
  {
    ConsumerMoves(s, residue);
    ConsumerLearns(s, residue);
    ProducerKnowledgeStable(s, ConsumerStep(s, residue));
  }

  // ---- Every step refines the FIFO queue ----------------------------------------------------

  /** The producer writes the slot at the write position, which is outside the queue. */
  lemma SlotWriteKeepsQueue<T>(s: State<T>, s': State<T>)
    requires PosInv(s) && PosInv(s') && s.p.PGotRead? && Held(s.sh) + 2 <= s.sh.cap
    requires s' == s.(p := s'.p, sh := s.sh.(buf := s.sh.buf[s.p.w := s.p.item]))
    ensures Queue(s') == Queue(s)
  {
    var sh := s.sh;
    if s.c.CTook? {
      SlotsUntouched(sh.buf, Wrap(sh.readPos + 1, sh.cap), Held(sh) - 1, s.p.w, s.p.item);
    } else {
      SlotsUntouched(sh.buf, sh.readPos, Held(sh), s.p.w, s.p.item);
    }
  }

  /** Publishing the write position appends the item just written. */
  lemma PublishAppends<T>(s: State<T>, s': State<T>)
    requires PosInv(s) && PosInv(s') && s.p.PWrote?
    requires s'.sh == s.sh.(writePos := s.p.next) && s'.c == s.c
    ensures Queue(s') == Queue(s) + [s.p.item]
  {
    var sh := s.sh;
    var from, n := if s.c.CTook? then Wrap(sh.readPos + 1, sh.cap) else sh.readPos,
                   if s.c.CTook? then Held(sh) - 1 else Held(sh);
    assert Held(s'.sh) == Held(sh) + 1 && Wrap(from + n, sh.cap) == sh.writePos;
    SlotsAppend(sh.buf, from, n);
  }

  /** Moving an item out of its slot leaves it at the head of the queue. */
  lemma TakeKeepsQueue<T>(s: State<T>, s': State<T>, residue: T)
    requires PosInv(s) && PosInv(s') && s.c.CGotWrite? && Held(s.sh) >= 1
    requires s'.c == CTook(s.c.r, s.sh.buf[s.c.r])
    requires s'.sh == s.sh.(buf := s.sh.buf[s.c.r := residue])
    ensures Queue(s') == Queue(s)
  {
    var sh := s.sh;
    SlotsHead(sh.buf, sh.readPos, Held(sh));
    SlotsUntouched(sh.buf, Wrap(sh.readPos + 1, sh.cap), Held(sh) - 1, sh.readPos, residue);
  }

  /** Publishing the read position drops the head. */
  lemma ReadPublishDropsHead<T>(s: State<T>, s': State<T>)
    requires PosInv(s) && PosInv(s') && s.c.CTook? && s'.c.CPublished?
    requires s'.sh == s.sh.(readPos := Wrap(s.sh.readPos + 1, s.sh.cap))
    ensures Queue(s) == [s.c.item] + Queue(s')
  {
    assert Held(s'.sh) == Held(s.sh) - 1;
  }

  /** What one step may do to the abstract queue: nothing, take the head, or append at the tail;
      the logs grow by exactly what the queue lost or gained. */
  ghost predicate FifoStep<T>(s: State<T>, s': State<T>)
    requires PosInv(s) && PosInv(s')
  {
    && s.pushed <= s'.pushed && s.popped <= s'.popped
    && var added, taken := s'.pushed[|s.pushed|..], s'.popped[|s.popped|..];
    && |added| + |taken| <= 1
    && taken + Queue(s') == Queue(s) + added
  }

  lemma EffectRefines<T>(s: State<T>, s': State<T>, taken: seq<T>, added: seq<T>)
    requires PosInv(s) && PosInv(s') && |added| + |taken| <= 1
    requires s.pushed == s.popped + Queue(s)
    requires s'.pushed == s.pushed + added && s'.popped == s.popped + taken
    requires taken + Queue(s') == Queue(s) + added
    ensures FifoStep(s, s') && s'.pushed == s'.popped + Queue(s')
  {
    LogsMatch(s.popped, Queue(s), taken, Queue(s'), added);
    assert s'.pushed[|s.pushed|..] == added && s'.popped[|s.popped|..] == taken;
  }

  lemma LogsMatch<T>(popped: seq<T>, q: seq<T>, taken: seq<T>, q': seq<T>, added: seq<T>)
    requires taken + q' == q + added
    ensures popped + q + added == popped + taken + q'
  {
    assert popped + q + added == popped + (q + added);
    assert popped + taken + q' == popped + (taken + q');
  }

  lemma SameRing<T>(s: State<T>, s': State<T>)
    requires WellFormed(s.sh) && (s.c.CTook? ==> Held(s.sh) >= 1)
    requires s'.sh == s.sh.(pushCount := s'.sh.pushCount, popCount := s'.sh.popCount, dropCount := s'.sh.dropCount)
    requires s'.c == s.c || (!s.c.CTook? && !s'.c.CTook?)
    ensures WellFormed(s'.sh) && Held(s'.sh) == Held(s.sh) && Queue(s') == Queue(s)
  {
    assert s'.sh.buf == s.sh.buf && s'.sh.readPos == s.sh.readPos && s'.sh.writePos == s.sh.writePos;
    if s.c.CTook? {
      assert s'.c.item == s.c.item;
    } else {
      assert Queue(s) == Slots(s.sh.buf, s.sh.readPos, Held(s.sh));
    }
  }

  /** The queue after a producer step: only publishing changes it. */
  lemma ProducerStepQueue<T>(s: State<T>)
    requires PosInv(s) && PosInv(ProducerStep(s))
    ensures Queue(ProducerStep(s)) == Queue(s) + (if s.p.PWrote? then [s.p.item] else [])
  {
    var s' := ProducerStep(s);
    match s.p
    case PGotRead(x, w, r) =>
      NextPosWraps(w, s.sh.cap);
      if NextPos(w, s.sh.mask) != r { SlotWriteKeepsQueue(s, s'); } else { SameRing(s, s'); }
    case PWrote(_, _) => PublishAppends(s, s');
    case _ => SameRing(s, s');
  }

  lemma ProducerStepLogs<T>(s: State<T>)
    requires |s.sh.buf| == s.sh.cap
    requires s.pushed == s.accepted + (if s.p.PPublished? then [s.p.item] else [])
    ensures var s' := ProducerStep(s);
      && s'.popped == s.popped && s'.returned == s.returned && s'.c == s.c
      && s'.pushed == s.pushed + (if s.p.PWrote? then [s.p.item] else [])
      && s'.pushed == s'.accepted + (if s'.p.PPublished? then [s'.p.item] else [])
  {
  }

  lemma ProducerStepRefines<T>(s: State<T>)
    requires Inv(s)
    ensures Inv(ProducerStep(s)) && FifoStep(s, ProducerStep(s))
  {
    ProducerStepLogs(s);
    ProducerKeepsPositions(s);
    ProducerStepQueue(s);
    var s' := ProducerStep(s);
    EffectRefines(s, s', [], if s.p.PWrote? then [s.p.item] else []);
  }

  /** The queue after a consumer step: only publishing changes it. */
  lemma ConsumerStepQueue<T>(s: State<T>, residue: T)
    requires PosInv(s) && PosInv(ConsumerStep(s, residue))
    ensures Queue(s) == (if s.c.CTook? then [s.c.item] else []) + Queue(ConsumerStep(s, residue))
  {
    var s' := ConsumerStep(s, residue);
    match s.c
    case CGotWrite(r, w) =>
      if r != w { TakeKeepsQueue(s, s', residue); } else { SameRing(s, s'); }
    case CTook(_, _) =>
      NextPosWraps(s.sh.readPos, s.sh.cap);
      ReadPublishDropsHead(s, s');
    case _ => SameRing(s, s');
  }

  lemma ConsumerStepLogs<T>(s: State<T>, residue: T)
    requires |s.sh.buf| == s.sh.cap
    requires s.popped == s.returned + (if s.c.CPublished? then [s.c.item] else [])
    ensures var s' := ConsumerStep(s, residue);
      && s'.pushed == s.pushed && s'.accepted == s.accepted && s'.p == s.p
      && s'.popped == s.popped + (if s.c.CTook? then [s.c.item] else [])
      && s'.popped == s'.returned + (if s'.c.CPublished? then [s'.c.item] else [])
  {
    match s.c
    case CGotWrite(_, _) =>
    case CTook(_, _) =>
    case CPublished(_) =>
    case _ =>
  }

  lemma ConsumerStepRefines<T>(s: State<T>, residue: T)
    requires Inv(s)
    ensures Inv(ConsumerStep(s, residue)) && FifoStep(s, ConsumerStep(s, residue))
  {
    ConsumerStepLogs(s, residue);
    ConsumerKeepsPositions(s, residue);
    ConsumerStepQueue(s, residue);
    var s' := ConsumerStep(s, residue);
    EffectRefines(s, s', if s.c.CTook? then [s.c.item] else [], []);
  }

  /** Starting a call, and the observer's steps, touch neither the ring nor the logs. */
  lemma OtherStepTouchesLittle<T>(s: State<T>, a: Action<T>)
    requires PosInv(s) && !a.Produce? && !a.Consume?
    ensures var s' := Step(s, a);
      && s'.sh == s.sh && s'.promised == s.promised && s'.pushed == s.pushed && s'.popped == s.popped
      && s'.accepted == s.accepted && s'.returned == s.returned
      && (a.CallPop? || a.ConsumerSize? ==> s'.p == s.p && s'.o == s.o)
      && (!(a.CallPop? || a.ConsumerSize?) ==> s'.c == s.c)
      && (s.c.CTook? || s.c.CPublished? || s'.c.CTook? || s'.c.CPublished? ==> s'.c == s.c)
      && (s.p.PPublished? || s'.p.PPublished? ==> s'.p == s.p)
  {
  }

  lemma ConsumerCallPositions<T>(s: State<T>, a: Action<T>)
    requires PosInv(s) && (a.CallPop? || a.ConsumerSize?)
    ensures PosInv(Step(s, a))
  {
    OtherStepTouchesLittle(s, a);
    ProducerKnowledgeStable(s, Step(s, a));
  }

  lemma ProducerCallPositions<T>(s: State<T>, a: Action<T>)
    requires PosInv(s) && (a.CallPush? || a.ProducerSize? || a.ObserverSize? || a.Observe?)
    ensures PosInv(Step(s, a))
  {
    OtherStepTouchesLittle(s, a);
    ConsumerKnowledgeStable(s, Step(s, a));
  }

  lemma OtherStepPositions<T>(s: State<T>, a: Action<T>)
    requires PosInv(s) && !a.Produce? && !a.Consume?
    ensures PosInv(Step(s, a)) && Queue(Step(s, a)) == Queue(s)
  {
    OtherStepTouchesLittle(s, a);
    if a.CallPop? || a.ConsumerSize? {
      ConsumerCallPositions(s, a);
    } else {
      ProducerCallPositions(s, a);
    }
  }

  lemma OtherStepRefines<T>(s: State<T>, a: Action<T>)
    requires Inv(s) && !a.Produce? && !a.Consume?
    ensures Inv(Step(s, a)) && FifoStep(s, Step(s, a))
  {
    OtherStepPositions(s, a);
    OtherStepTouchesLittle(s, a);
    EffectRefines(s, Step(s, a), [], []);
  }

  lemma StepRefines<T>(s: State<T>, a: Action<T>)
    requires Inv(s)
    ensures Inv(Step(s, a)) && FifoStep(s, Step(s, a))
  {
    match a
    case Produce => ProducerStepRefines(s);
    case Consume(residue) => ConsumerStepRefines(s, residue);
    case _ => OtherStepRefines(s, a);
  }

  // ---- Results over every schedule ----------------------------------------------------------

  lemma {:induction false} ExecInv<T>(s: State<T>, schedule: seq<Action<T>>)
    requires Inv(s)
    ensures Inv(Exec(s, schedule))
    decreases |schedule|
  {
    if schedule != [] {
      var front := schedule[..|schedule| - 1];
      ExecInv(s, front);
      StepRefines(Exec(s, front), schedule[|schedule| - 1]);
    }
  }

  lemma BumpCounts(n: nat)
    ensures Bump(n % WORD) == (n + 1) % WORD
  {
    var q := n / WORD;
    if n % WORD + 1 == WORD {
      DivModUnique(n + 1, WORD, q + 1, 0);
    } else {
      DivModUnique(n + 1, WORD, q, n % WORD + 1);
    }
  }

  lemma ProducerCounts<T>(s: State<T>)
    requires |s.sh.buf| == s.sh.cap && CountInv(s)
    ensures CountInv(ProducerStep(s))
  {
    match s.p
    case PGotRead(_, _, _) => BumpCounts(s.rejected);
    case PPublished(_) => BumpCounts(|s.accepted|);
    case _ =>
  }

  lemma ConsumerCounts<T>(s: State<T>, residue: T)
    requires |s.sh.buf| == s.sh.cap && CountInv(s)
    ensures CountInv(ConsumerStep(s, residue))
  {
    match s.c
    case CPublished(_) => BumpCounts(|s.returned|);
    case _ =>
  }

  lemma StepCounts<T>(s: State<T>, a: Action<T>)
    requires |s.sh.buf| == s.sh.cap && CountInv(s)
    ensures CountInv(Step(s, a))
  {
    match a
    case Produce => ProducerCounts(s);
    case Consume(residue) => ConsumerCounts(s, residue);
    case _ =>
  }

  lemma {:induction false} ExecCounts<T>(s: State<T>, schedule: seq<Action<T>>)
    requires |s.sh.buf| == s.sh.cap && CountInv(s)
    ensures CountInv(Exec(s, schedule))
    decreases |schedule|
  {
    if schedule != [] {
      var front := schedule[..|schedule| - 1];
      ExecCounts(s, front);
      StepCounts(Exec(s, front), schedule[|schedule| - 1]);
    }
  }

  /** In every interleaving, what was published for reading is what was taken followed by the ring
      slots, never more than capacity - 1 of them; the items `pop` returned are, in order and
      without loss or repetition, a prefix of the items `push` accepted or is about to accept; and
      the three counters count calls modulo the word size. */
  lemma FifoOverEverySchedule<T>(sh: Shared<T>, schedule: seq<Action<T>>)
    requires Fresh(sh)
    ensures var s := Exec(Quiet(sh), schedule);
      && Inv(s)
      && |Queue(s)| == Held(s.sh) <= sh.cap - 1
      && s.pushed == s.popped + Queue(s)
      && s.returned <= s.popped <= s.pushed && s.accepted <= s.pushed
      && |s.pushed| <= |s.accepted| + 1 && |s.popped| <= |s.returned| + 1
      && (s.p.PIdle? && s.c.CIdle? ==> s.accepted == s.returned + Slots(s.sh.buf, s.sh.readPos, Held(s.sh)))
      && CountInv(s)
  {
    FreshInv(sh);
    ExecCounts(Quiet(sh), schedule);
    ExecInv(Quiet(sh), schedule);
    InvMeans(Exec(Quiet(sh), schedule));
  }

  /** What the invariant says about a state. */
  lemma InvMeans<T>(s: State<T>)
    requires Inv(s)
    ensures |Queue(s)| == Held(s.sh) <= s.sh.cap - 1
    ensures s.pushed == s.popped + Queue(s)
    ensures s.returned <= s.popped <= s.pushed && s.accepted <= s.pushed
    ensures |s.pushed| <= |s.accepted| + 1 && |s.popped| <= |s.returned| + 1
    ensures s.p.PIdle? && s.c.CIdle? ==>
              s.accepted == s.returned + Slots(s.sh.buf, s.sh.readPos, Held(s.sh))
  {
  }

  /** The slot the producer is about to overwrite holds no queued item and is not the slot the
      consumer is about to move out of, however stale the position it tested against. */
  lemma WriteSlotIsFree<T>(s: State<T>)
    requires Inv(s) && s.p.PGotRead? && NextPos(s.p.w, s.sh.mask) != s.p.r
    ensures !Covers(s.sh.readPos, Held(s.sh), s.p.w, s.sh.cap)
    ensures s.c.CGotWrite? && s.c.r != s.c.w ==> s.c.r != s.p.w
    ensures s.c.CTook? ==> s.c.r != s.p.w
    ensures Held(s.sh) <= s.sh.cap - 2
  {
    NextPosWraps(s.p.w, s.sh.cap);
  }

  /** `size()` is within capacity - 1 for every observer; called by the consumer it never exceeds
      the true length when it returns, called by the producer it is never below it. */
  lemma SizeBounds<T>(s: State<T>)
    requires Inv(s)
    ensures s.o.OSized? ==> 0 <= SizeOf(s.sh.cap, s.o.r, s.o.w) <= s.sh.cap - 1
    ensures s.c.CSized? ==> 0 <= SizeOf(s.sh.cap, s.c.r, s.c.w) <= |Queue(s)|
    ensures s.p.PSized? ==> |Queue(s)| <= SizeOf(s.sh.cap, s.p.r, s.p.w) <= s.sh.cap - 1
  {
  }

  /** Once the consumer has seen a non-empty queue, its next pop cannot fail. */
  lemma PromisedPopSucceeds<T>(s: State<T>, residue: T)
    requires Inv(s) && s.promised && s.c.CGotWrite?
    ensures Step(s, Consume(residue)).c == CTook(s.c.r, Queue(s)[0])
  {
  }
}

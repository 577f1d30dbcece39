/** What each call on the ring buffer answers, over every schedule, and that it ends.

    An observer of the run notes the queue at the moment a call loads the other side's position. Every
    answer is decided by what was noted then, however far the other side has moved on since. */
module SpscCalls {
  import opened Bits
  import opened SpscProtocol

  /** What was seen during the latest call of each kind: the item given to `push` and the queue when it
      loaded the read position; the queue when `pop` loaded the write position; the queue when the
      producer's `size` loaded the read position and when the consumer's loaded the write position;
      and how many items had been taken, and then published, at the two loads of the observer's. */
  datatype Seen<T> = Seen(
    items: seq<T>, atPush: seq<T>, atPop: seq<T>, atProducerSize: seq<T>, atConsumerSize: seq<T>,
    takenAtSize: nat, publishedAtSize: nat)

  ghost function Note<T>(s: State<T>, a: Action<T>, seen: Seen<T>): Seen<T>
    requires Inv(s)
  {
    match a
    case CallPush(x) => if s.p.PIdle? then seen.(items := [x]) else seen
    case ProducerSize => if s.p.PIdle? then seen.(atProducerSize := Queue(s)) else seen
    case Produce => if s.p.PGotWrite? then seen.(atPush := Queue(s)) else seen
    case Consume(_) =>
      if s.c.CGotRead? then seen.(atPop := Queue(s))
      else if s.c.CSizing? then seen.(atConsumerSize := Queue(s))
      else seen
    case ObserverSize => if s.o.OIdle? then seen.(takenAtSize := |s.popped|) else seen
    case Observe => if s.o.OSizing? then seen.(publishedAtSize := |s.pushed|) else seen
    case CallPop => seen
    case ConsumerSize => seen
  }

  ghost function SeenBy<T>(sh: Shared<T>, schedule: seq<Action<T>>): Seen<T>
    requires Fresh(sh)
  {
    if schedule == [] then Seen([], [], [], [], [], 0, 0)
    else
      var front := schedule[..|schedule| - 1];
      FreshInv(sh);
      ExecInv(Quiet(sh), front);
      Note(Exec(Quiet(sh), front), schedule[|schedule| - 1], SeenBy(sh, front))
  }

  predicate Pushing<T>(p: Producer<T>) { !p.PIdle? && !p.PSizing? && !p.PSized? }

  predicate Popping<T>(c: Consumer<T>) { !c.CIdle? && !c.CSizing? && !c.CSized? }

  // ---- What the noted facts decide ----------------------------------------------------------

  ghost predicate PushSeen<T>(s: State<T>, seen: Seen<T>)
    requires WellFormed(s.sh)
  {
    match s.p
    case PStart(x) => seen.items == [x]
    case PGotWrite(x, _) => seen.items == [x]
    case PGotRead(x, w, r) =>
      && seen.items == [x] && r < s.sh.cap && w == s.sh.writePos
      && SizeOf(s.sh.cap, r, w) == |seen.atPush| <= s.sh.cap - 1
    case PWrote(x, _) => seen.items == [x] && |seen.atPush| < s.sh.cap - 1
    case PPublished(x) => seen.items == [x] && |seen.atPush| < s.sh.cap - 1
    case PSizing(r) => r < s.sh.cap && SizeOf(s.sh.cap, r, s.sh.writePos) == |seen.atProducerSize|
    case PSized(r, w) => SizeOf(s.sh.cap, r, w) == |seen.atProducerSize|
    case PIdle => true
  }

  ghost predicate PopSeen<T>(s: State<T>, seen: Seen<T>)
    requires PosInv(s)
  {
    match s.c
    case CGotWrite(r, w) => SizeOf(s.sh.cap, r, w) == |seen.atPop| && seen.atPop <= Queue(s)
    case CTook(_, x) => seen.atPop != [] && seen.atPop[0] == x
    case CPublished(x) => seen.atPop != [] && seen.atPop[0] == x
    case CSized(r, w) => SizeOf(s.sh.cap, r, w) == |seen.atConsumerSize|
    case _ => true
  }

  ghost predicate ObserverSeen<T>(s: State<T>, seen: Seen<T>)
    requires s.sh.cap > 0
  {
    match s.o
    case OIdle => true
    case OSizing(r) => r == seen.takenAtSize % s.sh.cap
    case OSized(r, w) => r == seen.takenAtSize % s.sh.cap && w == seen.publishedAtSize % s.sh.cap
  }

  /** The positions count what has been published and taken, modulo the capacity. */
  ghost predicate Counted<T>(s: State<T>)
    requires s.sh.cap > 0
  {
    s.sh.writePos == |s.pushed| % s.sh.cap && s.sh.readPos == |s.popped| % s.sh.cap
  }

  ghost predicate SeenInv<T>(s: State<T>, seen: Seen<T>)
  {
    Inv(s) && PushSeen(s, seen) && PopSeen(s, seen) && Counted(s) && ObserverSeen(s, seen)
  }

  lemma WrapCounts(n: nat, cap: nat)
    requires cap > 0
    ensures Wrap(n % cap + 1, cap) == (n + 1) % cap
  {
    var q := n / cap;
    if n % cap + 1 == cap {
      DivModUnique(n + 1, cap, q + 1, 0);
    } else {
      DivModUnique(n + 1, cap, q, n % cap + 1);
    }
  }

  lemma ProducerKeepsCount<T>(s: State<T>)
    requires Inv(s) && Counted(s)
    ensures Counted(ProducerStep(s))
  {
    match s.p
    case PWrote(_, _) => WrapCounts(|s.pushed|, s.sh.cap);
    case _ =>
  }

  lemma ConsumerKeepsCount<T>(s: State<T>, residue: T)
    requires Inv(s) && Counted(s)
    ensures Counted(ConsumerStep(s, residue))
  {
    match s.c
    case CTook(r, _) =>
      NextPosWraps(r, s.sh.cap);
      WrapCounts(|s.popped|, s.sh.cap);
    case _ =>
  }

  lemma QueueLength<T>(s: State<T>)
    requires Inv(s)
    ensures |Queue(s)| == Held(s.sh) <= s.sh.cap - 1
  {
  }

  lemma ProducerPushSeen<T>(s: State<T>, seen: Seen<T>)
    requires Inv(s) && PushSeen(s, seen) && PosInv(ProducerStep(s))
    ensures PushSeen(ProducerStep(s), Note(s, Produce, seen))
  {
    QueueLength(s);
    NextPosWraps(s.sh.writePos, s.sh.cap);
    match s.p
    case PGotWrite(_, _) =>
    case PGotRead(_, _, _) =>
    case PSizing(_) =>
    case _ =>
  }

  /** What the consumer was promised stays at the front of the queue while the producer appends. */
  lemma ProducerPopSeen<T>(s: State<T>, seen: Seen<T>)
    requires Inv(s) && PopSeen(s, seen) && PosInv(ProducerStep(s))
    ensures PopSeen(ProducerStep(s), Note(s, Produce, seen))
  {
    ProducerStepQueue(s);
    assert ProducerStep(s).c == s.c;
  }

  lemma ConsumerPushSeen<T>(s: State<T>, seen: Seen<T>, residue: T)
    requires Inv(s) && PushSeen(s, seen) && WellFormed(ConsumerStep(s, residue).sh)
    ensures PushSeen(ConsumerStep(s, residue), Note(s, Consume(residue), seen))
  {
    var s' := ConsumerStep(s, residue);
    assert s'.p == s.p && s'.sh.cap == s.sh.cap && s'.sh.writePos == s.sh.writePos;
  }

  lemma ConsumerPopSeen<T>(s: State<T>, seen: Seen<T>, residue: T)
    requires Inv(s) && PopSeen(s, seen) && PosInv(ConsumerStep(s, residue))
    ensures PopSeen(ConsumerStep(s, residue), Note(s, Consume(residue), seen))
  {
    ConsumerStepQueue(s, residue);
    QueueLength(s);
    match s.c
    case CGotWrite(r, w) => if r != w { HeadIsTaken(s); }
    case CGotRead(_) =>
    case CSizing(_) =>
    case CTook(_, _) =>
    case _ =>
  }

  lemma HeadIsTaken<T>(s: State<T>)
    requires Inv(s) && s.c.CGotWrite? && s.c.r != s.c.w
    ensures Queue(s) != [] && Queue(s)[0] == s.sh.buf[s.c.r]
  {
  }

  lemma OtherSeen<T>(s: State<T>, a: Action<T>, seen: Seen<T>)
    requires SeenInv(s, seen) && !a.Produce? && !a.Consume?
    requires Inv(Step(s, a)) && Queue(Step(s, a)) == Queue(s)
    ensures SeenInv(Step(s, a), Note(s, a, seen))
  {
    OtherStepTouchesLittle(s, a);
    QueueLength(s);
    OtherPushSeen(s, a, seen);
    OtherPopSeen(s, a, seen);
  }

  lemma OtherPushSeen<T>(s: State<T>, a: Action<T>, seen: Seen<T>)
    requires Inv(s) && PushSeen(s, seen) && !a.Produce? && !a.Consume? && Step(s, a).sh == s.sh
    ensures PushSeen(Step(s, a), Note(s, a, seen))
  {
    QueueLength(s);
    match a
    case CallPush(_) =>
    case ProducerSize =>
    case _ =>
  }

  lemma OtherPopSeen<T>(s: State<T>, a: Action<T>, seen: Seen<T>)
    requires Inv(s) && PopSeen(s, seen) && !a.Produce? && !a.Consume?
    requires PosInv(Step(s, a)) && Queue(Step(s, a)) == Queue(s) && Step(s, a).sh == s.sh
    ensures PopSeen(Step(s, a), Note(s, a, seen))
  {
    match a
    case CallPop =>
    case ConsumerSize =>
    case _ =>
  }

  lemma StepKeepsSeen<T>(s: State<T>, a: Action<T>, seen: Seen<T>)
    requires SeenInv(s, seen)
    ensures SeenInv(Step(s, a), Note(s, a, seen))
  {
    StepRefines(s, a);
    match a
    case Produce => ProducerSeen(s, seen);
    case Consume(residue) => ConsumerSeen(s, seen, residue);
    case _ =>
      OtherStepPositions(s, a);
      OtherSeen(s, a, seen);
  }

  lemma ProducerSeen<T>(s: State<T>, seen: Seen<T>)
    requires SeenInv(s, seen) && Inv(ProducerStep(s))
    ensures SeenInv(ProducerStep(s), Note(s, Produce, seen))
  {
    ProducerPushSeen(s, seen);
    ProducerPopSeen(s, seen);
    ProducerKeepsCount(s);
    ProducerKeepsObserver(s, seen);
    Together(ProducerStep(s), Note(s, Produce, seen));
  }

  lemma Together<T>(s: State<T>, seen: Seen<T>)
    requires Inv(s) && PushSeen(s, seen) && PopSeen(s, seen) && Counted(s) && ObserverSeen(s, seen)
    ensures SeenInv(s, seen)
  {
  }

  lemma ProducerKeepsObserver<T>(s: State<T>, seen: Seen<T>)
    requires Inv(s) && ObserverSeen(s, seen)
    ensures ObserverSeen(ProducerStep(s), Note(s, Produce, seen))
  {
    assert ProducerStep(s).o == s.o;
  }

  lemma ConsumerKeepsObserver<T>(s: State<T>, seen: Seen<T>, residue: T)
    requires Inv(s) && ObserverSeen(s, seen)
    ensures ObserverSeen(ConsumerStep(s, residue), Note(s, Consume(residue), seen))
  {
    assert ConsumerStep(s, residue).o == s.o;
  }

  lemma ConsumerSeen<T>(s: State<T>, seen: Seen<T>, residue: T)
    requires SeenInv(s, seen) && Inv(ConsumerStep(s, residue))
    ensures SeenInv(ConsumerStep(s, residue), Note(s, Consume(residue), seen))
  {
    ConsumerPushSeen(s, seen, residue);
    ConsumerPopSeen(s, seen, residue);
    ConsumerKeepsCount(s, residue);
    ConsumerKeepsObserver(s, seen, residue);
    Together(ConsumerStep(s, residue), Note(s, Consume(residue), seen));
  }

  lemma {:induction false} SeenThrough<T>(sh: Shared<T>, schedule: seq<Action<T>>)
    requires Fresh(sh)
    ensures SeenInv(Exec(Quiet(sh), schedule), SeenBy(sh, schedule))
    decreases |schedule|
  {
    FreshInv(sh);
    if schedule != [] {
      var front := schedule[..|schedule| - 1];
      SeenThrough(sh, front);
      StepKeepsSeen(Exec(Quiet(sh), front), schedule[|schedule| - 1], SeenBy(sh, front));
    }
  }

  // ---- The answers --------------------------------------------------------------------------

  /** In every interleaving, when a `push` ends: it has been refused exactly if capacity - 1 items were
      held at the moment it loaded the read position, and then it has published nothing; otherwise
      its own item has been accepted. */
  lemma RefusedIffFull<T>(sh: Shared<T>, schedule: seq<Action<T>>, a: Action<T>)
    requires Fresh(sh)
    ensures var s, seen := Exec(Quiet(sh), schedule), SeenBy(sh, schedule);
      var s' := Step(s, a);
      Pushing(s.p) && s'.p.PIdle? ==>
        if |seen.atPush| == sh.cap - 1 then
          s'.rejected == s.rejected + 1 && s'.accepted == s.accepted && s'.pushed == s.accepted
        else
          s'.rejected == s.rejected && s'.accepted == s.accepted + seen.items && |seen.items| == 1
  {
    SeenThrough(sh, schedule);
    var s := Exec(Quiet(sh), schedule);
    if Pushing(s.p) && Step(s, a).p.PIdle? {
      EndsByProducing(s, a);
      PushEnds(s, SeenBy(sh, schedule));
    }
  }

  lemma EndsByProducing<T>(s: State<T>, a: Action<T>)
    requires |s.sh.buf| == s.sh.cap && Pushing(s.p) && Step(s, a).p.PIdle?
    ensures a.Produce?
  {
  }

  lemma PushEnds<T>(s: State<T>, seen: Seen<T>)
    requires SeenInv(s, seen) && Pushing(s.p) && ProducerStep(s).p.PIdle?
    ensures var s' := ProducerStep(s);
      if |seen.atPush| == s.sh.cap - 1 then
        s'.rejected == s.rejected + 1 && s'.accepted == s.accepted && s'.pushed == s.accepted
      else
        s'.rejected == s.rejected && s'.accepted == s.accepted + seen.items && |seen.items| == 1
  {
    NextPosWraps(s.sh.writePos, s.sh.cap);
    match s.p
    case PGotRead(_, w, r) =>
    case PPublished(_) =>
  }

  /** In every interleaving, when a `pop` ends: it has failed exactly if the queue was empty at the
      moment it loaded the write position, and otherwise it returns the item then at the head. */
  lemma MissedIffEmpty<T>(sh: Shared<T>, schedule: seq<Action<T>>, a: Action<T>)
    requires Fresh(sh)
    ensures var s, seen := Exec(Quiet(sh), schedule), SeenBy(sh, schedule);
      var s' := Step(s, a);
      Popping(s.c) && s'.c.CIdle? ==>
        && s'.returned == s.returned + (if seen.atPop == [] then [] else [seen.atPop[0]])
        && s'.popped == s'.returned
  {
    SeenThrough(sh, schedule);
    var s := Exec(Quiet(sh), schedule);
    StepRefines(s, a);
    if Popping(s.c) && Step(s, a).c.CIdle? && a.Consume? { PopEnds(s, SeenBy(sh, schedule), a.residue); }
  }

  lemma PopEnds<T>(s: State<T>, seen: Seen<T>, residue: T)
    requires SeenInv(s, seen) && Popping(s.c) && ConsumerStep(s, residue).c.CIdle?
    ensures var s' := ConsumerStep(s, residue);
      && s'.returned == s.returned + (if seen.atPop == [] then [] else [seen.atPop[0]])
      && s'.popped == s'.returned
  {
    match s.c
    case CGotWrite(_, _) =>
    case CPublished(_) =>
  }

  lemma SizeModulo(cap: nat, taken: nat, published: nat)
    requires cap > 0
    ensures SizeOf(cap, taken % cap, published % cap) == (published - taken) % cap
  {
    var r, w := taken % cap, published % cap;
    var d := published / cap - taken / cap;
    assert published - taken == d * cap + (w - r);
    if w >= r {
      DivModUnique(published - taken, cap, d, w - r);
    } else {
      assert published - taken == (d - 1) * cap + (cap - r + w);
      DivModUnique(published - taken, cap, d - 1, cap - r + w);
    }
  }

  ghost predicate SizesAnswer<T>(s: State<T>, seen: Seen<T>)
  {
    && (s.c.CSized? ==> SizeOf(s.sh.cap, s.c.r, s.c.w) == |seen.atConsumerSize|)
    && (s.p.PSized? ==> SizeOf(s.sh.cap, s.p.r, s.p.w) == |seen.atProducerSize|)
    && (s.o.OSized? ==>
          && s.sh.cap > 0
          && SizeOf(s.sh.cap, s.o.r, s.o.w) == (seen.publishedAtSize - seen.takenAtSize) % s.sh.cap)
  }

  /** In every interleaving, what `size` answers when it is about to return: called by the consumer,
      the queue's length when it loaded the write position; called by the producer, the length when
      it loaded the read position; called by anybody else, the number of items published at its
      second load less those taken at its first, modulo the capacity. */
  lemma SizeAnswers<T>(sh: Shared<T>, schedule: seq<Action<T>>)
    requires Fresh(sh)
    ensures SizesAnswer(Exec(Quiet(sh), schedule), SeenBy(sh, schedule))
  {
    SeenThrough(sh, schedule);
    SizesSeen(Exec(Quiet(sh), schedule), SeenBy(sh, schedule));
  }

  lemma SizesSeen<T>(s: State<T>, seen: Seen<T>)
    requires SeenInv(s, seen)
    ensures SizesAnswer(s, seen)
  {
    SizeModulo(s.sh.cap, seen.takenAtSize, seen.publishedAtSize);
  }

  /** A `size` or `empty` of the consumer that finds the queue non-empty makes a promise that lasts until
      a `pop` ends; with `MissedIffEmpty` and `PromisedPopSucceeds` that pop succeeds. */
  lemma PromiseLasts<T>(sh: Shared<T>, schedule: seq<Action<T>>, a: Action<T>)
    requires Fresh(sh)
    ensures var s, seen := Exec(Quiet(sh), schedule), SeenBy(sh, schedule);
      var s' := Step(s, a);
      && (s.c.CSized? && s'.c.CIdle? ==> (s'.promised <==> s.promised || seen.atConsumerSize != []))
      && (s.promised && !(Popping(s.c) && s'.c.CIdle?) ==> s'.promised)
      && (s.promised && Popping(s.c) && s'.c.CIdle? ==> |s'.returned| == |s.returned| + 1)
  {
    SeenThrough(sh, schedule);
  }

  // ---- Every call ends ----------------------------------------------------------------------

  function ProducerLeft<T>(p: Producer<T>): nat
  {
    match p
    case PIdle => 0
    case PStart(_) => 5
    case PGotWrite(_, _) => 4
    case PGotRead(_, _, _) => 3
    case PWrote(_, _) => 2
    case PPublished(_) => 1
    case PSizing(_) => 2
    case PSized(_, _) => 1
  }

  function ConsumerLeft<T>(c: Consumer<T>): nat
  {
    match c
    case CIdle => 0
    case CStart => 5
    case CGotRead(_) => 4
    case CGotWrite(_, _) => 3
    case CTook(_, _) => 2
    case CPublished(_) => 1
    case CSizing(_) => 2
    case CSized(_, _) => 1
  }

  /** No call ever waits for the other side: each of a thread's own steps brings its call nearer to its
      end, which is at most five steps away, and nobody else's step takes it further away. */
  lemma CallsAreWaitFree<T>(s: State<T>, a: Action<T>)
    requires Inv(s)
    ensures var s' := Step(s, a);
      && ProducerLeft(s.p) <= 5 && ConsumerLeft(s.c) <= 5
      && (a.Produce? && !s.p.PIdle? ==> ProducerLeft(s'.p) < ProducerLeft(s.p))
      && (a.Consume? && !s.c.CIdle? ==> ConsumerLeft(s'.c) < ConsumerLeft(s.c))
      && (!a.Produce? && !s.p.PIdle? ==> s'.p == s.p)
      && (!a.Consume? && !s.c.CIdle? ==> s'.c == s.c)
  {
    match a
    case Produce => NextPosWraps(s.sh.writePos, s.sh.cap);
    case Consume(_) =>
    case _ =>
  }
}

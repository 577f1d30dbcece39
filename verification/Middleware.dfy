/** The middleware chain: closures composed by recursion, where a layer may call `next` any number of
    times.

    A C++ middleware can do nothing with `next` but call it. It is therefore modelled by what it does
    between calls: which context it hands on, given the contexts and codes its earlier calls came
    back with, whether it calls again, and what it returns in the end. The context stands for the
    whole mutable state the layers share. */
module Middleware {

  /** A context as a call left it, and the code the call returned. */
  datatype Reply<W> = Reply(context: W, code: int)

  /** `limit` bounds how often the layer calls `next` when entered with a context; `more` says
      whether it calls again after these replies; `ask` is the context at that call; `finish` what
      the layer leaves and returns once it calls no more. */
  datatype Layer<!W> = Layer(
    limit: W -> nat,
    more: (W, seq<Reply<W>>) -> bool,
    ask: (W, seq<Reply<W>>) -> W,
    finish: (W, seq<Reply<W>>) -> Reply<W>)

  type Handler<!W> = W -> Reply<W>

  predicate CallsAgain<W>(l: Layer<W>, w: W, replies: seq<Reply<W>>)
  {
    |replies| < l.limit(w) && l.more(w, replies)
  }

  /** One layer around `next`, with the replies it has had so far. */
  function RunLayer<W>(l: Layer<W>, w: W, next: Handler<W>, replies: seq<Reply<W>>): Reply<W>
    decreases l.limit(w) - |replies|
  {
    if CallsAgain(l, w, replies) then RunLayer(l, w, next, replies + [next(l.ask(w, replies))])
    else l.finish(w, replies)
  }

  function Run<W>(chain: seq<Layer<W>>, idx: nat, handler: Handler<W>, w: W): Reply<W>
    decreases |chain| - idx
  {
    if idx >= |chain| then handler(w)
    else RunLayer(chain[idx], w, w' => Run(chain, idx + 1, handler, w'), [])
  }

  function Execute<W>(chain: seq<Layer<W>>, handler: Handler<W>, w: W): Reply<W>
  {
    Run(chain, 0, handler, w)
  }

  class Chain<!W> {
    var layers: seq<Layer<W>>

    constructor ()
      ensures layers == []
    {
      layers := [];
    }

    method Use(l: Layer<W>)
      modifies this
      ensures layers == old(layers) + [l]
    {
      layers := layers + [l];
    }

    method Execute(w: W, handler: Handler<W>) returns (r: Reply<W>)
      ensures r == Run(layers, 0, handler, w)
    {
      r := Run(layers, 0, handler, w);
    }
  }

  // ---- Composition --------------------------------------------------------------------------

  ghost predicate Agree<W(!new)>(a: Handler<W>, b: Handler<W>) { forall w :: a(w) == b(w) }

  /** A layer cannot tell apart two continuations that answer alike. */
  lemma {:induction false} LayerRespects<W(!new)>(l: Layer<W>, w: W, a: Handler<W>, b: Handler<W>,
                                                  replies: seq<Reply<W>>)
    requires Agree(a, b)
    ensures RunLayer(l, w, a, replies) == RunLayer(l, w, b, replies)
    decreases l.limit(w) - |replies|
  {
    if CallsAgain(l, w, replies) {
      var x := l.ask(w, replies);
      assert a(x) == b(x);
      LayerRespects(l, w, a, b, replies + [a(x)]);
    }
  }

  lemma {:induction false} ChainRespects<W(!new)>(chain: seq<Layer<W>>, idx: nat, a: Handler<W>, b: Handler<W>, w: W)
    requires Agree(a, b)
    ensures Run(chain, idx, a, w) == Run(chain, idx, b, w)
    decreases |chain| - idx
  {
    if idx >= |chain| {
      assert a(w) == b(w);
    } else {
      var na: Handler<W>, nb: Handler<W> :=
        w' => Run(chain, idx + 1, a, w'), w' => Run(chain, idx + 1, b, w');
      forall x ensures na(x) == nb(x) { ChainRespects(chain, idx + 1, a, b, x); }
      LayerRespects(chain[idx], w, na, nb, []);
    }
  }

  /** Past the first part, a concatenated chain runs as its second part. */
  lemma {:induction false} RunShift<W(!new)>(a: seq<Layer<W>>, b: seq<Layer<W>>, j: nat, handler: Handler<W>, w: W)
    ensures Run(a + b, |a| + j, handler, w) == Run(b, j, handler, w)
    decreases |b| - j
  {
    if j < |b| {
      var na: Handler<W>, nb: Handler<W> :=
        w' => Run(a + b, |a| + j + 1, handler, w'), w' => Run(b, j + 1, handler, w');
      forall x ensures na(x) == nb(x) { RunShift(a, b, j + 1, handler, x); }
      assert (a + b)[|a| + j] == b[j];
      LayerRespects(b[j], w, na, nb, []);
    }
  }

  /** Executing A ++ B around a handler is executing A around "execute B around the handler". */
  lemma {:induction false} Composition<W(!new)>(a: seq<Layer<W>>, b: seq<Layer<W>>, idx: nat,
                                                handler: Handler<W>, w: W)
    requires idx <= |a|
    ensures Run(a + b, idx, handler, w) == Run(a, idx, w' => Execute(b, handler, w'), w)
    decreases |a| - idx
  {
    var inner: Handler<W> := w' => Execute(b, handler, w');
    if idx == |a| {
      RunShift(a, b, 0, handler, w);
    } else {
      var na: Handler<W>, nb: Handler<W> :=
        w' => Run(a + b, idx + 1, handler, w'), w' => Run(a, idx + 1, inner, w');
      forall x ensures na(x) == nb(x) { Composition(a, b, idx + 1, handler, x); }
      LayerRespects(a[idx], w, na, nb, []);
    }
  }

  lemma ExecuteComposes<W(!new)>(a: seq<Layer<W>>, b: seq<Layer<W>>, handler: Handler<W>, w: W)
    ensures Execute(a + b, handler, w) == Execute(a, w' => Execute(b, handler, w'), w)
  {
    Composition(a, b, 0, handler, w);
  }

  // ---- Stopping early -----------------------------------------------------------------------

  /** The layer never calls `next`. */
  ghost predicate NeverCalls<W(!new)>(l: Layer<W>) { forall w :: !CallsAgain(l, w, []) }

  /** A layer that does not call `next` stops everything deeper: the layers outside it see its own
      return value as the reply of their `next`, whatever lies inside. */
  lemma StopsTheRest<W(!new)>(outer: seq<Layer<W>>, l: Layer<W>, inner: seq<Layer<W>>, handler: Handler<W>, w: W)
    requires NeverCalls(l)
    ensures Execute(outer + ([l] + inner), handler, w) == Execute(outer, w' => l.finish(w', []), w)
  {
    var rest := [l] + inner;
    ExecuteComposes(outer, rest, handler, w);
    var a: Handler<W>, b: Handler<W> := w' => Execute(rest, handler, w'), w' => l.finish(w', []);
    forall x ensures a(x) == b(x) { assert rest[0] == l && !CallsAgain(l, x, []); }
    ChainRespects(outer, 0, a, b, w);
  }

  /** A layer that calls `next` once and then returns `code` whatever the reply. */
  function Overruling<W>(code: int): Layer<W>
  {
    Layer((w: W) => 1, (w: W, replies: seq<Reply<W>>) => true, (w: W, replies: seq<Reply<W>>) => w,
          (w: W, replies: seq<Reply<W>>) => Reply(if replies == [] then w else replies[|replies| - 1].context, code))
  }

  /** A non-zero return aborts nothing: everything inside the layer has run and left its context, and
      the layers outside it carry on with the code as the reply of their `next`. */
  lemma NonZeroDoesNotAbort<W(!new)>(outer: seq<Layer<W>>, inner: seq<Layer<W>>, code: int,
                                     handler: Handler<W>, w: W)
    ensures Execute(outer + ([Overruling(code)] + inner), handler, w)
         == Execute(outer, w' => Reply(Execute(inner, handler, w').context, code), w)
  {
    var rest := [Overruling<W>(code)] + inner;
    ExecuteComposes(outer, rest, handler, w);
    var a: Handler<W>, b: Handler<W> :=
      w' => Execute(rest, handler, w'), w' => Reply(Execute(inner, handler, w').context, code);
    forall x ensures a(x) == b(x) { OverrulingRuns(inner, code, handler, x); }
    ChainRespects(outer, 0, a, b, w);
  }

  lemma OverrulingRuns<W(!new)>(inner: seq<Layer<W>>, code: int, handler: Handler<W>, w: W)
    ensures Execute([Overruling(code)] + inner, handler, w) == Reply(Execute(inner, handler, w).context, code)
  {
    var l := Overruling<W>(code);
    var rest := [l] + inner;
    var next: Handler<W> := w' => Run(rest, 1, handler, w');
    RunShift([l], inner, 0, handler, w);
    assert [] + [next(w)] == [next(w)];
    assert RunLayer(l, w, next, [next(w)]) == l.finish(w, [next(w)]);
    assert RunLayer(l, w, next, []) == RunLayer(l, w, next, [next(w)]);
  }

  // ---- What runs, in which order ------------------------------------------------------------

  datatype Event = Enter(layer: nat) | Leave(layer: nat) | Handle

  function TraceLayer<W>(l: Layer<W>, w: W, next: Handler<W>, inside: W -> seq<Event>, replies: seq<Reply<W>>)
    : seq<Event>
    decreases l.limit(w) - |replies|
  {
    if CallsAgain(l, w, replies) then
      var x := l.ask(w, replies);
      inside(x) + TraceLayer(l, w, next, inside, replies + [next(x)])
    else []
  }

  /** The order in which layers are entered and left and the handler runs. */
  function Trace<W>(chain: seq<Layer<W>>, idx: nat, handler: Handler<W>, w: W): seq<Event>
    decreases |chain| - idx
  {
    if idx >= |chain| then [Handle]
    else
      [Enter(idx)]
      + TraceLayer(chain[idx], w, w' => Run(chain, idx + 1, handler, w'),
                   w' => Trace(chain, idx + 1, handler, w'), [])
      + [Leave(idx)]
  }

  // ---- The trace is what happens ------------------------------------------------------------

  /** A context together with the events so far. */
  type Logged<W> = (W, seq<Event>)

  function WithLog<W>(r: Reply<W>, log: seq<Event>): Reply<Logged<W>> { Reply((r.context, log), r.code) }

  function WithoutLogs<W>(replies: seq<Reply<Logged<W>>>): (r: seq<Reply<W>>)
    ensures |r| == |replies|
    ensures forall i :: 0 <= i < |r| ==> r[i] == Reply(replies[i].context.0, replies[i].code)
  {
    seq(|replies|, i requires 0 <= i < |replies| => Reply(replies[i].context.0, replies[i].code))
  }

  /** The events so far, as a layer entered with `log` finds them after some replies. */
  function LogAfter<W>(log: seq<Event>, idx: nat, replies: seq<Reply<Logged<W>>>): seq<Event>
  {
    if replies == [] then log + [Enter(idx)] else replies[|replies| - 1].context.1
  }

  /** The layer, noting in the context when it is entered and left. */
  function Watched<W>(l: Layer<W>, idx: nat): Layer<Logged<W>>
  {
    Layer(
      (x: Logged<W>) => l.limit(x.0),
      (x: Logged<W>, replies: seq<Reply<Logged<W>>>) => l.more(x.0, WithoutLogs(replies)),
      (x: Logged<W>, replies: seq<Reply<Logged<W>>>) =>
        (l.ask(x.0, WithoutLogs(replies)), LogAfter(x.1, idx, replies)),
      (x: Logged<W>, replies: seq<Reply<Logged<W>>>) =>
        WithLog(l.finish(x.0, WithoutLogs(replies)), LogAfter(x.1, idx, replies) + [Leave(idx)]))
  }

  function WatchedHandler<W>(handler: Handler<W>): Handler<Logged<W>>
  {
    (x: Logged<W>) => WithLog(handler(x.0), x.1 + [Handle])
  }

  function WatchedChain<W>(chain: seq<Layer<W>>): (r: seq<Layer<Logged<W>>>)
    ensures |r| == |chain| && forall i :: 0 <= i < |chain| ==> r[i] == Watched(chain[i], i)
  {
    seq(|chain|, i requires 0 <= i < |chain| => Watched(chain[i], i))
  }

  lemma WatchedAsks<W>(l: Layer<W>, idx: nat, w: W, log: seq<Event>, replies: seq<Reply<Logged<W>>>)
    ensures var wl, x, plain := Watched(l, idx), (w, log), WithoutLogs(replies);
      && wl.limit(x) == l.limit(w)
      && CallsAgain(wl, x, replies) == CallsAgain(l, w, plain)
      && wl.ask(x, replies) == (l.ask(w, plain), LogAfter(log, idx, replies))
      && wl.finish(x, replies) == WithLog(l.finish(w, plain), LogAfter(log, idx, replies) + [Leave(idx)])
  {
  }

  lemma RunLayerStep<W>(l: Layer<W>, w: W, next: Handler<W>, replies: seq<Reply<W>>)
    ensures RunLayer(l, w, next, replies)
         == if CallsAgain(l, w, replies) then RunLayer(l, w, next, replies + [next(l.ask(w, replies))])
            else l.finish(w, replies)
  {
  }

  /** The trace of a layer's calls and its end, when it is entered with `log`. */
  function LoggedTail<W>(l: Layer<W>, idx: nat, w: W, next: Handler<W>, inside: W -> seq<Event>,
                         g: seq<Event>, plain: seq<Reply<W>>): seq<Event>
  {
    g + TraceLayer(l, w, next, inside, plain) + [Leave(idx)]
  }

  lemma LoggedTailStep<W>(l: Layer<W>, idx: nat, w: W, next: Handler<W>, inside: W -> seq<Event>,
                          g: seq<Event>, plain: seq<Reply<W>>)
    ensures LoggedTail(l, idx, w, next, inside, g, plain)
         == if CallsAgain(l, w, plain) then
              var x := l.ask(w, plain);
              LoggedTail(l, idx, w, next, inside, g + inside(x), plain + [next(x)])
            else g + [Leave(idx)]
  {
    if CallsAgain(l, w, plain) {
      var x := l.ask(w, plain);
      var rest := TraceLayer(l, w, next, inside, plain + [next(x)]);
      assert g + inside(x) + rest + [Leave(idx)] == g + (inside(x) + rest) + [Leave(idx)];
    } else {
      assert g + [] + [Leave(idx)] == g + [Leave(idx)];
    }
  }

  lemma {:induction false} WatchedLayerRuns<W(!new)>(
      l: Layer<W>, idx: nat, w: W, log: seq<Event>, next: Handler<W>, inside: W -> seq<Event>,
      watchedNext: Handler<Logged<W>>, replies: seq<Reply<Logged<W>>>, plain: seq<Reply<W>>, g: seq<Event>)
    requires forall x, h :: watchedNext((x, h)) == WithLog(next(x), h + inside(x))
    requires plain == WithoutLogs(replies) && g == LogAfter(log, idx, replies)
    ensures RunLayer(Watched(l, idx), (w, log), watchedNext, replies)
         == WithLog(RunLayer(l, w, next, plain), LoggedTail(l, idx, w, next, inside, g, plain))
    decreases l.limit(w) - |plain|
  {
    var wl := Watched(l, idx);
    WatchedAsks(l, idx, w, log, replies);
    RunLayerStep(wl, (w, log), watchedNext, replies);
    RunLayerStep(l, w, next, plain);
    LoggedTailStep(l, idx, w, next, inside, g, plain);
    if CallsAgain(l, w, plain) {
      var x := l.ask(w, plain);
      var more := replies + [watchedNext((x, g))];
      RepliesGrow(replies, watchedNext((x, g)), log, idx);
      WatchedLayerRuns(l, idx, w, log, next, inside, watchedNext, more, plain + [next(x)], g + inside(x));
    }
  }

  lemma RepliesGrow<W>(replies: seq<Reply<Logged<W>>>, r: Reply<Logged<W>>, log: seq<Event>, idx: nat)
    ensures WithoutLogs(replies + [r]) == WithoutLogs(replies) + [Reply(r.context.0, r.code)]
    ensures LogAfter(log, idx, replies + [r]) == r.context.1
  {
  }

  lemma RunStep<W>(chain: seq<Layer<W>>, idx: nat, handler: Handler<W>, w: W, next: Handler<W>)
    requires idx < |chain| && next == (w' => Run(chain, idx + 1, handler, w'))
    ensures Run(chain, idx, handler, w) == RunLayer(chain[idx], w, next, [])
  {
  }

  lemma TraceStep<W>(chain: seq<Layer<W>>, idx: nat, handler: Handler<W>, w: W, next: Handler<W>,
                     inside: W -> seq<Event>, log: seq<Event>)
    requires idx < |chain| && next == (w' => Run(chain, idx + 1, handler, w'))
    requires inside == (w' => Trace(chain, idx + 1, handler, w'))
    ensures log + Trace(chain, idx, handler, w)
         == LoggedTail(chain[idx], idx, w, next, inside, log + [Enter(idx)], [])
  {
    var t := TraceLayer(chain[idx], w, next, inside, []);
    assert log + [Enter(idx)] + t + [Leave(idx)] == log + ([Enter(idx)] + t + [Leave(idx)]);
  }

  /** Running the chain with every layer and the handler noting its events changes no reply, and what
      is noted is the trace. */
  lemma {:induction false} WatchedRun<W(!new)>(chain: seq<Layer<W>>, idx: nat, handler: Handler<W>,
                                               w: W, log: seq<Event>)
    ensures Run(WatchedChain(chain), idx, WatchedHandler(handler), (w, log))
         == WithLog(Run(chain, idx, handler, w), log + Trace(chain, idx, handler, w))
    decreases |chain| - idx
  {
    if idx < |chain| {
      var next: Handler<W>, inside: W -> seq<Event> :=
        w' => Run(chain, idx + 1, handler, w'), w' => Trace(chain, idx + 1, handler, w');
      var watchedNext: Handler<Logged<W>> :=
        x => Run(WatchedChain(chain), idx + 1, WatchedHandler(handler), x);
      forall x, h ensures watchedNext((x, h)) == WithLog(next(x), h + inside(x)) {
        WatchedRun(chain, idx + 1, handler, x, h);
      }
      RunStep(WatchedChain(chain), idx, WatchedHandler(handler), (w, log), watchedNext);
      RunStep(chain, idx, handler, w, next);
      TraceStep(chain, idx, handler, w, next, inside, log);
      WatchedLayerRuns(chain[idx], idx, w, log, next, inside, watchedNext, [], [], log + [Enter(idx)]);
    }
  }

  /** What a chain notes when it is executed. */
  function Noted<W>(chain: seq<Layer<W>>, handler: Handler<W>, w: W): seq<Event>
  {
    Execute(WatchedChain(chain), WatchedHandler(handler), (w, [])).context.1
  }

  lemma NotedIsTrace<W(!new)>(chain: seq<Layer<W>>, handler: Handler<W>, w: W)
    ensures Noted(chain, handler, w) == Trace(chain, 0, handler, w)
  {
    WatchedRun(chain, 0, handler, w, []);
    assert [] + Trace(chain, 0, handler, w) == Trace(chain, 0, handler, w);
  }

  lemma TraceNotEmpty<W>(chain: seq<Layer<W>>, idx: nat, handler: Handler<W>, w: W)
    ensures |Trace(chain, idx, handler, w)| >= 1
  {
  }

  /** Wherever in an execution layer `idx` is entered, with whatever context and events so far: nothing
      inside it runs until it is left, neither a layer nor the handler, exactly if it does not call
      `next` in that context. */
  lemma InsideRunsIff<W(!new)>(chain: seq<Layer<W>>, idx: nat, handler: Handler<W>, w: W, log: seq<Event>)
    requires idx < |chain|
    ensures Run(WatchedChain(chain), idx, WatchedHandler(handler), (w, log)).context.1
              == log + [Enter(idx), Leave(idx)]
        <==> !CallsAgain(chain[idx], w, [])
  {
    WatchedRun(chain, idx, handler, w, log);
    var l := chain[idx];
    var next: Handler<W>, inside: W -> seq<Event> :=
      w' => Run(chain, idx + 1, handler, w'), w' => Trace(chain, idx + 1, handler, w');
    TraceStep(chain, idx, handler, w, next, inside, log);
    LoggedTailStep(l, idx, w, next, inside, log + [Enter(idx)], []);
    assert log + [Enter(idx), Leave(idx)] == log + [Enter(idx)] + [Leave(idx)];
    if CallsAgain(l, w, []) {
      var x := l.ask(w, []);
      TraceNotEmpty(chain, idx + 1, handler, x);
      var g := log + [Enter(idx)] + inside(x);
      assert |LoggedTail(l, idx, w, next, inside, g, [] + [next(x)])| >= |g| + 1;
    }
  }

  // ---- How often, and in which order --------------------------------------------------------

  /** The layer calls `next` exactly k times, whatever the context and the replies. */
  ghost predicate CallsExactly<W(!new)>(l: Layer<W>, k: nat)
  {
    forall w, replies :: CallsAgain(l, w, replies) <==> |replies| < k
  }

  function HandlerRuns(t: seq<Event>): nat
  {
    if t == [] then 0 else HandlerRuns(t[1..]) + if t[0].Handle? then 1 else 0
  }

  lemma {:induction false} HandlerRunsConcat(s: seq<Event>, t: seq<Event>)
    ensures HandlerRuns(s + t) == HandlerRuns(s) + HandlerRuns(t)
  {
    if s == [] {
      assert s + t == t;
    } else {
      assert (s + t)[1..] == s[1..] + t;
      HandlerRunsConcat(s[1..], t);
    }
  }

  function Product(ks: seq<nat>): nat
  {
    if ks == [] then 1 else ks[0] * Product(ks[1..])
  }

  lemma {:induction false} LayerRuns<W(!new)>(l: Layer<W>, w: W, next: Handler<W>, inside: W -> seq<Event>,
                                              replies: seq<Reply<W>>, k: nat, c: nat)
    requires CallsExactly(l, k) && |replies| <= k
    requires forall x :: HandlerRuns(inside(x)) == c
    ensures HandlerRuns(TraceLayer(l, w, next, inside, replies)) == (k - |replies|) * c
    decreases k - |replies|
  {
    assert CallsAgain(l, w, replies) <==> |replies| < k;
    if |replies| < k {
      var x := l.ask(w, replies);
      var more := replies + [next(x)];
      LayerRuns(l, w, next, inside, more, k, c);
      HandlerRunsConcat(inside(x), TraceLayer(l, w, next, inside, more));
      OneMore(k - |more|, c);
    }
  }

  lemma OneMore(n: nat, c: nat)
    ensures (n + 1) * c == c + n * c
  {
  }

  lemma {:induction false} TraceRuns<W(!new)>(chain: seq<Layer<W>>, ks: seq<nat>, idx: nat,
                                                       handler: Handler<W>, w: W)
    requires |ks| == |chain| && idx <= |chain|
    requires forall i :: 0 <= i < |chain| ==> CallsExactly(chain[i], ks[i])
    ensures HandlerRuns(Trace(chain, idx, handler, w)) == Product(ks[idx..])
    decreases |chain| - idx
  {
    if idx < |chain| {
      var c := Product(ks[idx + 1..]);
      var next: Handler<W>, inside: W -> seq<Event> :=
        w' => Run(chain, idx + 1, handler, w'), w' => Trace(chain, idx + 1, handler, w');
      forall x ensures HandlerRuns(inside(x)) == c { TraceRuns(chain, ks, idx + 1, handler, x); }
      LayerRuns(chain[idx], w, next, inside, [], ks[idx], c);
      var t := TraceLayer(chain[idx], w, next, inside, []);
      HandlerRunsConcat([Enter(idx)], t);
      HandlerRunsConcat([Enter(idx)] + t, [Leave(idx)]);
      assert ks[idx..][1..] == ks[idx + 1..];
    }
  }

  /** If layer i calls `next` exactly k_i times, executing the chain runs the handler the product of all
      k_i times. */
  lemma HandlerRunsProduct<W(!new)>(chain: seq<Layer<W>>, ks: seq<nat>, handler: Handler<W>, w: W)
    requires |ks| == |chain|
    requires forall i :: 0 <= i < |chain| ==> CallsExactly(chain[i], ks[i])
    ensures HandlerRuns(Noted(chain, handler, w)) == Product(ks)
  {
    NotedIsTrace(chain, handler, w);
    TraceRuns(chain, ks, 0, handler, w);
    assert ks[0..] == ks;
  }

  /** The onion: in to the handler and out again in mirror order. */
  function Onion(idx: nat, n: nat): seq<Event>
    decreases n - idx
  {
    if idx >= n then [Handle] else [Enter(idx)] + Onion(idx + 1, n) + [Leave(idx)]
  }

  lemma {:induction false} TraceIsOnion<W(!new)>(chain: seq<Layer<W>>, idx: nat, handler: Handler<W>, w: W)
    requires forall i :: 0 <= i < |chain| ==> CallsExactly(chain[i], 1)
    ensures Trace(chain, idx, handler, w) == Onion(idx, |chain|)
    decreases |chain| - idx
  {
    if idx < |chain| {
      var l := chain[idx];
      var next: Handler<W>, inside: W -> seq<Event> :=
        w' => Run(chain, idx + 1, handler, w'), w' => Trace(chain, idx + 1, handler, w');
      assert CallsExactly(l, 1);
      assert CallsAgain(l, w, []);
      var x := l.ask(w, []);
      assert !CallsAgain(l, w, [next(x)]);
      TraceIsOnion(chain, idx + 1, handler, x);
      assert [] + [next(x)] == [next(x)];
      assert TraceLayer(l, w, next, inside, [next(x)]) == [];
      assert TraceLayer(l, w, next, inside, []) == inside(x) + [];
    }
  }

  /** When every layer calls `next` exactly once, executing the chain enters and leaves in the order of
      the onion. */
  lemma OnionOrder<W(!new)>(chain: seq<Layer<W>>, handler: Handler<W>, w: W)
    requires forall i :: 0 <= i < |chain| ==> CallsExactly(chain[i], 1)
    ensures Noted(chain, handler, w) == Onion(0, |chain|)
  {
    NotedIsTrace(chain, handler, w);
    TraceIsOnion(chain, 0, handler, w);
  }

  lemma {:induction false} OnionSize(idx: nat, n: nat)
    requires idx <= n
    ensures |Onion(idx, n)| == 2 * (n - idx) + 1 && Onion(idx, n)[n - idx] == Handle
    decreases n - idx
  {
    if idx < n {
      OnionSize(idx + 1, n);
      assert Onion(idx, n)[n - idx] == Onion(idx + 1, n)[n - idx - 1];
    }
  }

  /** Position i from the front enters layer i, position i from the back leaves it. */
  lemma {:induction false} OnionIsMirrored(idx: nat, n: nat, i: nat)
    requires idx + i < n
    ensures var o := Onion(idx, n);
      && |o| == 2 * (n - idx) + 1 && o[n - idx] == Handle
      && o[i] == Enter(idx + i) && o[|o| - 1 - i] == Leave(idx + i)
    decreases i
  {
    OnionSize(idx, n);
    OnionSize(idx + 1, n);
    var o, inner := Onion(idx, n), Onion(idx + 1, n);
    assert o == [Enter(idx)] + inner + [Leave(idx)];
    if i > 0 {
      OnionIsMirrored(idx + 1, n, i - 1);
      assert o[i] == inner[i - 1] && o[|o| - 1 - i] == inner[|inner| - 1 - (i - 1)];
    }
  }
}

/** The purged and capped table against a set of all tokens ever revoked. */
module BlacklistProofs {
  import opened Bytes
  import opened Blacklist

  // ---- One revocation -----------------------------------------------------------------------

  /** After revoking a token that carries an expiry, the token is in the table and, with a positive
      limit, the table is within it, however large it was before. Exactly the excess of unexpired
      entries over limit - 1 was evicted, and each evicted entry comes before each one kept. */
  lemma RevokeMeans(es: seq<Entry>, max: int, token: Bytes, exp: int, now: int)
    requires Sorted(es) && exp != 0
    ensures var live, kept := Purged(es, now), Evicted(Purged(es, now), max);
      var r := Revoked(es, max, token, exp, now);
      && Sorted(r) && Has(r, token)
      && (max > 0 ==> |r| <= max)
      && |live| - |kept| == (if max > 0 && |live| >= max then |live| - (max - 1) else 0)
      && (forall a, b :: a in live && a !in kept && b in kept ==> Before(a, b))
      && (forall e :: e in r <==> e in kept || (e == Entry(token, exp) && !Has(kept, token)))
  {
    PurgedMeans(es, now);
    EvictedMeans(Purged(es, now), max);
    InsertedMeans(Evicted(Purged(es, now), max), Entry(token, exp));
  }

  // ---- Against the set of everything ever revoked -------------------------------------------

  datatype Op =
    | Revoke(token: Bytes, now: int)
    | Cleanup(now: int)
    | Load(more: seq<Entry>)
    | SetMax(max: int)

  /** `ever`: every token revoked or loaded. `lost`: tokens evicted since and not put back.
      `clock`: the latest time seen. */
  datatype Machine = Machine(es: seq<Entry>, max: int, ever: set<Bytes>, lost: set<Bytes>, clock: int)

  function Tokens(es: seq<Entry>): (r: set<Bytes>)
    ensures forall t :: t in r <==> Has(es, t)
  {
    set e | e in es :: e.token
  }

  /** The token's own expiry, as `getExp` reads it. */
  type Expiry = Bytes -> int

  function Apply(m: Machine, op: Op, exp: Expiry): Machine
  {
    match op
    case Revoke(t, now) =>
      var live := Purged(m.es, now);
      m.(es := Revoked(m.es, m.max, t, exp(t), now), ever := m.ever + {t}, clock := now,
         lost := if exp(t) == 0 then m.lost
                 else m.lost + (Tokens(live) - Tokens(Evicted(live, m.max))) - {t})
    case Cleanup(now) => m.(es := Purged(m.es, now), clock := now)
    case Load(more) =>
      m.(es := Loaded(m.es, more), ever := m.ever + Tokens(more), lost := m.lost - Tokens(more))
    case SetMax(max) => m.(max := max)
  }

  function Run(ops: seq<Op>, start: int, exp: Expiry): Machine
  {
    if ops == [] then Machine([], 1000, {}, {}, start)
    else Apply(Run(ops[..|ops| - 1], start, exp), ops[|ops| - 1], exp)
  }

  /** The clock does not run backwards, and loaded entries live at least as long as their token. */
  predicate Admissible(m: Machine, op: Op, exp: Expiry)
  {
    match op
    case Revoke(_, now) => m.clock <= now
    case Cleanup(now) => m.clock <= now
    case Load(more) => forall e :: e in more ==> e.expireAt >= exp(e.token)
    case SetMax(_) => true
  }

  ghost predicate AllAdmissible(ops: seq<Op>, start: int, exp: Expiry)
  {
    forall i :: 0 <= i < |ops| ==> Admissible(Run(ops[..i], start, exp), ops[i], exp)
  }

  ghost predicate Inv(m: Machine, exp: Expiry)
  {
    && Sorted(m.es)
    && (forall e :: e in m.es ==> e.token in m.ever && e.token !in m.lost && e.expireAt >= exp(e.token))
    && m.lost <= m.ever
    && (forall t :: t in m.ever ==>
          Has(m.es, t) || exp(t) <= m.clock || exp(t) == 0 || t in m.lost)
  }

  lemma CleanupKeepsInv(m: Machine, now: int, exp: Expiry)
    requires Inv(m, exp) && m.clock <= now
    ensures Inv(Apply(m, Cleanup(now), exp), exp)
  {
    PurgedMeans(m.es, now);
    PurgeForgetsOnlyExpired(m, now, exp);
  }

  lemma PurgeForgetsOnlyExpired(m: Machine, now: int, exp: Expiry)
    requires Inv(m, exp) && m.clock <= now
    ensures forall t :: t in m.ever ==>
              Has(Purged(m.es, now), t) || exp(t) <= now || exp(t) == 0 || t in m.lost
  {
    PurgedMeans(m.es, now);
    forall t | t in m.ever && !(exp(t) <= now || exp(t) == 0 || t in m.lost)
      ensures Has(Purged(m.es, now), t)
    {
      var e :| e in m.es && e.token == t;
      assert e in Purged(m.es, now);
    }
  }

  lemma RevokeKeepsInv(m: Machine, t: Bytes, now: int, exp: Expiry)
    requires Inv(m, exp) && m.clock <= now
    ensures Inv(Apply(m, Revoke(t, now), exp), exp)
  {
    if exp(t) != 0 {
      var m' := Apply(m, Revoke(t, now), exp);
      var live, kept := Purged(m.es, now), Evicted(Purged(m.es, now), m.max);
      RevokeMeans(m.es, m.max, t, exp(t), now);
      PurgedMeans(m.es, now);
      EvictedMeans(live, m.max);
      PurgeForgetsOnlyExpired(m, now, exp);
      forall e | e in m'.es
        ensures e.token in m'.ever && e.token !in m'.lost && e.expireAt >= exp(e.token)
      {
        if e in kept { assert e in live && e in m.es; }
      }
      forall u | u in m'.ever
        ensures Has(m'.es, u) || exp(u) <= now || exp(u) == 0 || u in m'.lost
      {
        if u != t && Has(live, u) && Has(kept, u) {
          var e :| e in kept && e.token == u;
          assert e in m'.es;
        }
      }
    }
  }

  lemma {:induction false} LoadedMeans(es: seq<Entry>, more: seq<Entry>)
    requires Sorted(es)
    ensures var r := Loaded(es, more);
      && Sorted(r)
      && (forall e :: e in r ==> e in es || e in more)
      && (forall t :: Has(es, t) || Has(more, t) ==> Has(r, t))
    decreases |more|
  {
    if more != [] {
      var front, last := more[..|more| - 1], more[|more| - 1];
      LoadedMeans(es, front);
      var f := Loaded(es, front);
      InsertedMeans(f, last);
      forall t | Has(es, t) || Has(more, t) ensures Has(Loaded(es, more), t) {
        if t != last.token {
          assert Has(es, t) || Has(front, t);
          var e :| e in f && e.token == t;
          assert e in Loaded(es, more);
        }
      }
    }
  }

  lemma LoadKeepsInv(m: Machine, more: seq<Entry>, exp: Expiry)
    requires Inv(m, exp) && Admissible(m, Load(more), exp)
    ensures Inv(Apply(m, Load(more), exp), exp)
  {
    var m' := Apply(m, Load(more), exp);
    LoadedMeans(m.es, more);
    forall e | e in m'.es
      ensures e.token in m'.ever && e.token !in m'.lost && e.expireAt >= exp(e.token)
    {
      if e in more { assert Has(more, e.token); }
    }
    forall t | t in m'.ever
      ensures Has(m'.es, t) || exp(t) <= m'.clock || exp(t) == 0 || t in m'.lost
    {
    }
  }

  lemma {:induction false} ReachableInv(ops: seq<Op>, start: int, exp: Expiry)
    requires AllAdmissible(ops, start, exp)
    ensures Inv(Run(ops, start, exp), exp)
    decreases |ops|
  {
    if ops != [] {
      var front, last := ops[..|ops| - 1], ops[|ops| - 1];
      assert AllAdmissible(front, start, exp) by {
        forall i | 0 <= i < |front| ensures Admissible(Run(front[..i], start, exp), front[i], exp) {
          assert front[..i] == ops[..i] && front[i] == ops[i];
        }
      }
      ReachableInv(front, start, exp);
      var m := Run(front, start, exp);
      assert Admissible(m, last, exp);
      match last
      case Revoke(t, now) => RevokeKeepsInv(m, t, now, exp);
      case Cleanup(now) => CleanupKeepsInv(m, now, exp);
      case Load(more) => LoadKeepsInv(m, more, exp);
      case SetMax(_) =>
    }
  }

  /** `verify`'s answer for a token that passes the signature and issue-time checks iff `sound`. */
  predicate Accepts(m: Machine, t: Bytes, sound: bool, now: int, exp: Expiry)
  {
    sound && exp(t) != 0 && now < exp(t) && !Has(m.es, t)
  }

  /** The answer of a verifier that remembers every token ever revoked. */
  predicate AcceptsByHistory(m: Machine, t: Bytes, sound: bool, now: int, exp: Expiry)
  {
    sound && exp(t) != 0 && now < exp(t) && t !in m.ever
  }

  /** After every sequence of revocations, cleanups, loads and limit changes, the purged and capped
      table gives the answer of the full history at every later time, except for exactly the tokens
      that were evicted and not put back while they are still otherwise acceptable. */
  lemma AgreesWithHistoryIff(ops: seq<Op>, start: int, exp: Expiry, t: Bytes, sound: bool, now: int)
    requires AllAdmissible(ops, start, exp) && Run(ops, start, exp).clock <= now
    ensures var m := Run(ops, start, exp);
      (Accepts(m, t, sound, now, exp) == AcceptsByHistory(m, t, sound, now, exp))
      <==> !(sound && exp(t) != 0 && now < exp(t) && t in m.lost)
  {
    ReachableInv(ops, start, exp);
    var m := Run(ops, start, exp);
    if Has(m.es, t) {
      var e :| e in m.es && e.token == t;
    }
  }

  /** Whether a revocation finds room: what the caller can check beforehand. */
  predicate HasRoom(m: Machine, op: Op)
  {
    op.Revoke? ==> m.max <= 0 || |Purged(m.es, op.now)| < m.max
  }

  /** If every revocation found room there was no eviction, and the table always agrees with the
      full history. */
  lemma {:induction false} AgreesWhenNothingEvicted(ops: seq<Op>, start: int, exp: Expiry)
    requires AllAdmissible(ops, start, exp)
    requires forall i :: 0 <= i < |ops| ==> HasRoom(Run(ops[..i], start, exp), ops[i])
    ensures var m := Run(ops, start, exp);
      forall t, sound, now :: m.clock <= now ==>
        Accepts(m, t, sound, now, exp) == AcceptsByHistory(m, t, sound, now, exp)
  {
    NothingLost(ops, start, exp);
    var m := Run(ops, start, exp);
    forall t, sound, now | m.clock <= now
      ensures Accepts(m, t, sound, now, exp) == AcceptsByHistory(m, t, sound, now, exp)
    {
      AgreesWithHistoryIff(ops, start, exp, t, sound, now);
    }
  }

  lemma {:induction false} NothingLost(ops: seq<Op>, start: int, exp: Expiry)
    requires forall i :: 0 <= i < |ops| ==> HasRoom(Run(ops[..i], start, exp), ops[i])
    ensures Run(ops, start, exp).lost == {}
    decreases |ops|
  {
    if ops != [] {
      var front, last := ops[..|ops| - 1], ops[|ops| - 1];
      forall i | 0 <= i < |front| ensures HasRoom(Run(front[..i], start, exp), front[i]) {
        assert front[..i] == ops[..i] && front[i] == ops[i];
      }
      NothingLost(front, start, exp);
      assert HasRoom(Run(front, start, exp), last);
    }
  }

  /** With a limit of one, revoking a second token makes the first acceptable again. */
  lemma EvictionForgets(a: Bytes, b: Bytes, exp: Expiry)
    requires a != b && exp(a) == 100 && exp(b) == 200
    ensures var m := Run([SetMax(1), Revoke(a, 0), Revoke(b, 1)], 0, exp);
      Accepts(m, a, true, 2, exp) && !AcceptsByHistory(m, a, true, 2, exp)
  {
    var ops := [SetMax(1), Revoke(a, 0), Revoke(b, 1)];
    assert ops[..2] == [SetMax(1), Revoke(a, 0)] && ops[..2][..1] == [SetMax(1)];
    assert Run([], 0, exp) == Machine([], 1000, {}, {}, 0);
    assert [SetMax(1)][..0] == [];
    assert Run([SetMax(1)], 0, exp) == Machine([], 1, {}, {}, 0);
    var m2 := Run(ops[..2], 0, exp);
    assert m2.es == [Entry(a, 100)];
    assert Purged(m2.es, 1) == [Entry(a, 100)];
    assert Evicted([Entry(a, 100)], 1) == [];
    assert Run(ops, 0, exp).es == [Entry(b, 200)];
  }
}

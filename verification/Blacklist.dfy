/** The table of revoked tokens: a set of entries ordered by token, purged of expired entries and
    capped by evicting the entries that expire first. */
module Blacklist {
  import opened Bytes

  datatype Entry = Entry(token: Bytes, expireAt: int)

  // ---- Token order --------------------------------------------------------------------------

  predicate Less(a: Bytes, b: Bytes)
  {
    if b == [] then false
    else if a == [] then true
    else a[0] < b[0] || (a[0] == b[0] && Less(a[1..], b[1..]))
  }

  lemma {:induction false} LessIrreflexive(a: Bytes)
    ensures !Less(a, a)
  {
    if a != [] { LessIrreflexive(a[1..]); }
  }

  lemma {:induction false} LessTotal(a: Bytes, b: Bytes)
    ensures Less(a, b) || Less(b, a) || a == b
    decreases |a|
  {
    if a != [] && b != [] {
      LessTotal(a[1..], b[1..]);
      assert a == [a[0]] + a[1..] && b == [b[0]] + b[1..];
    }
  }

  lemma {:induction false} LessTrans(a: Bytes, b: Bytes, c: Bytes)
    requires Less(a, b) && Less(b, c)
    ensures Less(a, c)
    decreases |a|
  {
    if a != [] && a[0] == b[0] && b[0] == c[0] { LessTrans(a[1..], b[1..], c[1..]); }
  }

  ghost predicate Sorted(es: seq<Entry>)
  {
    forall i, j :: 0 <= i < j < |es| ==> Less(es[i].token, es[j].token)
  }

  predicate Has(es: seq<Entry>, token: Bytes) { exists e :: e in es && e.token == token }

  // ---- What the operations compute ----------------------------------------------------------

  function Purged(es: seq<Entry>, now: int): seq<Entry>
  {
    if es == [] then []
    else (if es[0].expireAt <= now then [] else [es[0]]) + Purged(es[1..], now)
  }

  /** The first of the entries that expire first. */
  function Oldest(es: seq<Entry>): (k: nat)
    requires es != []
    ensures k < |es|
    ensures forall i :: 0 <= i < |es| ==> es[k].expireAt <= es[i].expireAt
    ensures forall i :: 0 <= i < k ==> es[k].expireAt < es[i].expireAt
  {
    if |es| == 1 then 0
    else
      var front := Oldest(es[..|es| - 1]);
      if es[|es| - 1].expireAt < es[front].expireAt then |es| - 1 else front
  }

  function Without(es: seq<Entry>, k: nat): (r: seq<Entry>)
    requires k < |es|
    ensures |r| == |es| - 1
  {
    es[..k] + es[k + 1..]
  }

  function Evicted(es: seq<Entry>, max: int): seq<Entry>
    decreases |es|
  {
    if max > 0 && |es| >= max then Evicted(Without(es, Oldest(es)), max) else es
  }

  lemma EvictedStep(es: seq<Entry>, max: int, k: nat)
    requires max > 0 && |es| >= max && k == Oldest(es)
    ensures Evicted(es, max) == Evicted(es[..k] + es[k + 1..], max)
  {
  }

  /** Where a token belongs: after every smaller one. */
  function Place(es: seq<Entry>, token: Bytes): (k: nat)
    ensures k <= |es|
  {
    if es != [] && Less(es[0].token, token) then 1 + Place(es[1..], token) else 0
  }

  /** `set::insert`: an equal key is left as it is. */
  function Inserted(es: seq<Entry>, e: Entry): seq<Entry>
  {
    if Has(es, e.token) then es
    else es[..Place(es, e.token)] + [e] + es[Place(es, e.token)..]
  }

  function Revoked(es: seq<Entry>, max: int, token: Bytes, exp: int, now: int): seq<Entry>
  {
    if exp == 0 then es else Inserted(Evicted(Purged(es, now), max), Entry(token, exp))
  }

  function Loaded(es: seq<Entry>, more: seq<Entry>): seq<Entry>
  {
    if more == [] then es else Inserted(Loaded(es, more[..|more| - 1]), more[|more| - 1])
  }

  // ---- Facts about the pieces ---------------------------------------------------------------

  /** Purging keeps exactly the unexpired entries, in order. */
  lemma {:induction false} PurgedMeans(es: seq<Entry>, now: int)
    ensures forall e :: e in Purged(es, now) <==> e in es && e.expireAt > now
    ensures |Purged(es, now)| <= |es|
    ensures Sorted(es) ==> Sorted(Purged(es, now))
  {
    if es != [] {
      PurgedMeans(es[1..], now);
      var rest := Purged(es[1..], now);
      forall i | Sorted(es) && 0 <= i < |rest| ensures Less(es[0].token, rest[i].token) {
        assert rest[i] in es[1..];
        var j :| 0 <= j < |es[1..]| && es[1..][j] == rest[i];
        assert es[j + 1] == rest[i];
      }
    }
  }

  lemma WithoutSorted(es: seq<Entry>, k: nat)
    requires k < |es| && Sorted(es)
    ensures Sorted(Without(es, k))
    ensures forall e :: e in Without(es, k) <==> e in es && e != es[k]
  {
    var r := Without(es, k);
    forall e | e in r ensures e in es && e != es[k] {
      var i :| 0 <= i < |r| && r[i] == e;
      if i < k {
        assert es[i] == e && Less(es[i].token, es[k].token);
        LessIrreflexive(es[k].token);
      } else {
        assert es[i + 1] == e && Less(es[k].token, es[i + 1].token);
        LessIrreflexive(es[k].token);
      }
    }
    forall e | e in es && e != es[k] ensures e in r {
      var i :| 0 <= i < |es| && es[i] == e;
      if i < k { assert r[i] == e; } else { assert r[i - 1] == e; }
    }
  }

  /** The order of eviction: earlier expiry first, and the smaller token among equals. */
  predicate Before(a: Entry, b: Entry)
  {
    a.expireAt < b.expireAt || (a.expireAt == b.expireAt && Less(a.token, b.token))
  }

  lemma OldestIsFirst(es: seq<Entry>, i: nat)
    requires Sorted(es) && i < |es|
    ensures i == Oldest(es) || Before(es[Oldest(es)], es[i])
  {
  }

  /** Eviction leaves fewer than `max` entries and removes exactly as many as that takes; every
      entry removed comes before every entry kept. */
  lemma {:induction false} EvictedMeans(es: seq<Entry>, max: int)
    requires Sorted(es)
    ensures var r := Evicted(es, max);
      && Sorted(r)
      && (forall e :: e in r ==> e in es)
      && |r| == (if max > 0 && |es| >= max then max - 1 else |es|)
      && (forall a, b :: a in es && a !in r && b in r ==> Before(a, b))
    decreases |es|
  {
    if max > 0 && |es| >= max {
      var k := Oldest(es);
      var w := Without(es, k);
      WithoutSorted(es, k);
      EvictedMeans(w, max);
      var r := Evicted(es, max);
      forall a, b | a in es && a !in r && b in r ensures Before(a, b) {
        if a == es[k] {
          assert b in w;
          var i :| 0 <= i < |es| && es[i] == b;
          OldestIsFirst(es, i);
        }
      }
    }
  }

  lemma {:induction false} PlaceSplits(es: seq<Entry>, token: Bytes)
    requires Sorted(es) && !Has(es, token)
    ensures var k := Place(es, token);
      && (forall i :: 0 <= i < k ==> Less(es[i].token, token))
      && (forall i :: k <= i < |es| ==> Less(token, es[i].token))
  {
    if es != [] {
      assert es[0] in es;
      if Less(es[0].token, token) {
        forall e | e in es[1..] ensures e.token != token { assert e in es; }
        PlaceSplits(es[1..], token);
        assert forall i :: 1 <= i < |es| ==> es[i] == es[1..][i - 1];
      } else {
        LessTotal(es[0].token, token);
        forall i | 0 <= i < |es| ensures Less(token, es[i].token) {
          if i > 0 { LessTrans(token, es[0].token, es[i].token); }
        }
      }
    }
  }

  lemma InsertedMeans(es: seq<Entry>, e: Entry)
    requires Sorted(es)
    ensures Sorted(Inserted(es, e))
    ensures Has(es, e.token) ==> Inserted(es, e) == es
    ensures !Has(es, e.token) ==> |Inserted(es, e)| == |es| + 1
    ensures !Has(es, e.token) ==> forall f :: f in Inserted(es, e) <==> f in es || f == e
    ensures Has(Inserted(es, e), e.token)
  {
    if !Has(es, e.token) {
      var k := Place(es, e.token);
      PlaceSplits(es, e.token);
      var r := Inserted(es, e);
      assert r[k] == e;
      forall f | f in es ensures f in r {
        var i :| 0 <= i < |es| && es[i] == f;
        if i < k { assert r[i] == f; } else { assert r[i + 1] == f; }
      }
      InsertedSorted(es, e, k);
    }
  }

  lemma InsertedSorted(es: seq<Entry>, e: Entry, k: nat)
    requires Sorted(es) && k <= |es|
    requires forall i :: 0 <= i < k ==> Less(es[i].token, e.token)
    requires forall i :: k <= i < |es| ==> Less(e.token, es[i].token)
    ensures Sorted(es[..k] + [e] + es[k..])
  {
  }

  // ---- Searching in token order -------------------------------------------------------------

  /** `k` separates the entries below a token from the others. */
  ghost predicate Separates(es: seq<Entry>, token: Bytes, k: nat)
  {
    && k <= |es|
    && (forall i :: 0 <= i < k ==> Less(es[i].token, token))
    && (forall i :: k <= i < |es| ==> !Less(es[i].token, token))
  }

  lemma BelowSplits(es: seq<Entry>, token: Bytes, mid: nat)
    requires Sorted(es) && mid < |es|
    ensures Less(es[mid].token, token) ==> forall i :: 0 <= i <= mid ==> Less(es[i].token, token)
    ensures !Less(es[mid].token, token) ==> forall i :: mid <= i < |es| ==> !Less(es[i].token, token)
  {
    forall i | 0 <= i < mid && Less(es[mid].token, token) ensures Less(es[i].token, token) {
      LessTrans(es[i].token, es[mid].token, token);
    }
    forall i | mid < i < |es| && !Less(es[mid].token, token) ensures !Less(es[i].token, token) {
      if Less(es[i].token, token) { LessTrans(es[mid].token, es[i].token, token); }
    }
  }

  /** The only candidate for a token is the first entry that is not below it. */
  lemma FoundThere(es: seq<Entry>, token: Bytes, k: nat)
    requires Sorted(es) && Separates(es, token, k)
    ensures Has(es, token) <==> k < |es| && !Less(token, es[k].token)
  {
    LessIrreflexive(token);
    if k < |es| && !Less(token, es[k].token) {
      LessTotal(token, es[k].token);
      assert es[k] in es;
    }
    if Has(es, token) {
      var e :| e in es && e.token == token;
      var i :| 0 <= i < |es| && es[i] == e;
      FoundOnlyThere(es, token, k, i);
    }
  }

  lemma FoundOnlyThere(es: seq<Entry>, token: Bytes, k: nat, i: nat)
    requires Sorted(es) && Separates(es, token, k) && i < |es| && es[i].token == token
    ensures k == i
  {
    LessIrreflexive(token);
    var candidate := es[if k < |es| then k else i];
    assert k <= i;
  }

  lemma {:induction false} PlaceIs(es: seq<Entry>, token: Bytes, k: nat)
    requires Separates(es, token, k)
    ensures Place(es, token) == k
    decreases |es|
  {
    if k > 0 {
      assert forall i :: 0 <= i < |es| - 1 ==> es[1..][i] == es[i + 1];
      PlaceIs(es[1..], token, k - 1);
    }
  }

  // ---- The table ----------------------------------------------------------------------------

  /** `persisted` logs what the persistence callback was given, if one is set. */
  class Table {
    var entries: seq<Entry>
    var maxEntries: int
    var hasCallback: bool
    var persisted: seq<Entry>

    ghost predicate Valid()
      reads this
    {
      Sorted(entries)
    }

    constructor ()
      ensures Valid() && entries == [] && maxEntries == 1000 && !hasCallback && persisted == []
    {
      entries := [];
      maxEntries := 1000;
      hasCallback := false;
      persisted := [];
    }

    method Purge(now: int)
      modifies this`entries
      ensures entries == Purged(old(entries), now)
    {
      var i := 0;
      assert entries[0..] == entries;
      while i < |entries|
        invariant 0 <= i <= |entries|
        invariant entries[..i] + Purged(entries[i..], now) == Purged(old(entries), now)
        decreases |entries| - i
      {
        ghost var rest := entries[i..];
        ghost var head := entries[..i];
        if entries[i].expireAt <= now {
          entries := entries[..i] + entries[i + 1..];
          assert entries[..i] == head && entries[i..] == rest[1..];
        } else {
          i := i + 1;
          assert entries[..i] == head + [rest[0]] && entries[i..] == rest[1..];
        }
      }
      assert entries[..i] == entries && entries[i..] == [];
    }

    method Evict()
      requires Valid()
      modifies this`entries
      ensures Valid() && entries == Evicted(old(entries), maxEntries)
    {
      while maxEntries > 0 && |entries| >= maxEntries
        invariant Valid()
        invariant Evicted(entries, maxEntries) == Evicted(old(entries), maxEntries)
        decreases |entries|
      {
        var oldest := FindOldest();
        WithoutSorted(entries, oldest);
        EvictedStep(entries, maxEntries, oldest);
        entries := entries[..oldest] + entries[oldest + 1..];
      }
    }

    method FindOldest() returns (oldest: nat)
      requires entries != []
      ensures oldest == Oldest(entries)
    {
      oldest := 0;
      var it := 0;
      while it < |entries|
        invariant 0 <= it <= |entries| && oldest < |entries|
        invariant it == 0 ==> oldest == 0
        invariant it > 0 ==> oldest == Oldest(entries[..it])
      {
        assert entries[..it + 1][..it] == entries[..it];
        if entries[it].expireAt < entries[oldest].expireAt {
          oldest := it;
        }
        it := it + 1;
      }
      assert entries[..it] == entries;
    }

    /** The ordered set's search: it compares tokens with `<` only. */
    method LowerBound(token: Bytes) returns (k: nat)
      requires Valid()
      ensures Separates(entries, token, k)
    {
      k := 0;
      var end := |entries|;
      while k < end
        invariant k <= end <= |entries|
        invariant forall i :: 0 <= i < k ==> Less(entries[i].token, token)
        invariant forall i :: end <= i < |entries| ==> !Less(entries[i].token, token)
      {
        var mid := (k + end) / 2;
        BelowSplits(entries, token, mid);
        if Less(entries[mid].token, token) {
          k := mid + 1;
        } else {
          end := mid;
        }
      }
    }

    method Insert(e: Entry)
      requires Valid()
      modifies this`entries
      ensures Valid() && entries == Inserted(old(entries), e)
      ensures Has(entries, e.token)
      ensures Has(old(entries), e.token) ==> entries == old(entries)
      ensures !Has(old(entries), e.token) ==> forall f :: f in entries <==> f in old(entries) || f == e
    {
      InsertedMeans(entries, e);
      var k := LowerBound(e.token);
      FoundThere(entries, e.token, k);
      if k < |entries| && !Less(e.token, entries[k].token) { return; }
      PlaceIs(entries, e.token, k);
      entries := entries[..k] + [e] + entries[k..];
    }

    /** `exp` is the token's own expiry; `now` the clock. */
    method Revoke(token: Bytes, exp: int, now: int)
      requires Valid()
      modifies this`entries, this`persisted
      ensures Valid() && entries == Revoked(old(entries), maxEntries, token, exp, now)
      ensures persisted == old(persisted) + (if exp != 0 && hasCallback then [Entry(token, exp)] else [])
    {
      if exp == 0 { return; }
      PurgedMeans(entries, now);
      Purge(now);
      Evict();
      Insert(Entry(token, exp));
      if hasCallback { persisted := persisted + [Entry(token, exp)]; }
    }

    /** Whether the search ends at an entry that is not above the token either. */
    method IsRevoked(token: Bytes) returns (r: bool)
      requires Valid()
      ensures r <==> exists e :: e in entries && e.token == token
    {
      var k := LowerBound(token);
      FoundThere(entries, token, k);
      r := k < |entries| && !Less(token, entries[k].token);
    }

    method Cleanup(now: int)
      requires Valid()
      modifies this`entries
      ensures Valid() && entries == Purged(old(entries), now)
    {
      PurgedMeans(entries, now);
      Purge(now);
    }

    method LoadEntries(more: seq<Entry>)
      requires Valid()
      modifies this`entries
      ensures Valid() && entries == Loaded(old(entries), more)
    {
      for i := 0 to |more|
        invariant Valid() && entries == Loaded(old(entries), more[..i])
      {
        assert more[..i + 1][..i] == more[..i];
        Insert(more[i]);
      }
      assert more[..|more|] == more;
    }

    method SetMaxEntries(max: int)
      modifies this
      ensures maxEntries == max && entries == old(entries) && persisted == old(persisted)
      ensures hasCallback == old(hasCallback)
    {
      maxEntries := max;
    }
  }
}

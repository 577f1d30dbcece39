/** Stored passwords: `$pbkdf2-sha256$iterations$salt$hash`, with the key derivation an arbitrary
    function of password, salt, iteration count and length that may fail. */
module Password {
  import opened Bits
  import opened Bytes
  import opened Base64
  import opened Base64Url
  import opened Scan
  import opened Wrappers

  type Kdf = (Bytes, Bytes, int, nat) -> Option<Bytes>

  /** A derivation that succeeds delivers as many bytes as asked for. */
  ghost predicate WellBehaved(kdf: Kdf)
  {
    forall p, s, i, n :: kdf(p, s, i, n).Some? ==> |kdf(p, s, i, n).value| == n
  }

  const DOLLAR: Byte := 36
  const PREFIX: Bytes := Text("$pbkdf2-sha256$")
  const ITERATIONS: nat := 310000
  const SALT_BYTES: nat := 32
  const HASH_BYTES: nat := 32

  // ---- stoi ---------------------------------------------------------------------------------

  predicate IsSpace(c: Byte) { c == 32 || 9 <= c <= 13 }

  function SkipSpace(s: Bytes, from: nat): (p: nat)
    requires from <= |s|
    ensures from <= p <= |s|
    ensures forall i :: from <= i < p ==> IsSpace(s[i])
    ensures p < |s| ==> !IsSpace(s[p])
    decreases |s| - from
  {
    if from < |s| && IsSpace(s[from]) then SkipSpace(s, from + 1) else from
  }

  /** `stoi`: leading space, an optional sign, then digits; what follows is ignored. No digits, or a
      value outside 32 bits, is an exception. */
  function Stoi(s: Bytes): Option<int>
  {
    var p := SkipSpace(s, 0);
    var signed := p < |s| && (s[p] == MINUS || s[p] == PLUS);
    var d := if signed then p + 1 else p;
    var e := FirstNonDigit(s, d);
    if e == d then None
    else
      var v: int := Value(s[d..e]);
      var n := if signed && s[p] == MINUS then -v else v;
      if -INT32_LIMIT <= n < INT32_LIMIT then Some(n) else None
  }

  // ---- Specification ------------------------------------------------------------------------

  predicate IsHashed(s: Bytes) { |s| > 15 && s[..15] == PREFIX }

  function Stored(iterations: nat, salt: Bytes, hash: Bytes): Bytes
  {
    PREFIX + Digits(iterations) + [DOLLAR] + Encoded(salt) + [DOLLAR] + Encoded(hash)
  }

  /** `salt` is absent when the random generator fails. */
  function Hashed(password: Bytes, salt: Option<Bytes>, kdf: Kdf): Bytes
  {
    if salt.None? then []
    else
      var derived := kdf(password, salt.value, ITERATIONS, HASH_BYTES);
      if derived.None? then [] else Stored(ITERATIONS, salt.value, derived.value)
  }

  predicate Matches(password: Bytes, iterations: int, salt: Bytes, hash: Bytes, kdf: Kdf)
  {
    salt != [] && hash != [] && kdf(password, salt, iterations, |hash|) == Some(hash)
  }

  predicate Verified(password: Bytes, encoded: Bytes, kdf: Kdf)
  {
    IsHashed(encoded) && FieldsMatch(password, encoded[15..], kdf)
  }

  /** The iteration count, salt and hash fields as written. */
  predicate PartsMatch(password: Bytes, d: Bytes, e: Bytes, h: Bytes, kdf: Kdf)
  {
    Stoi(d).Some? && Stoi(d).value > 0 && Matches(password, Stoi(d).value, Decoded(e), Decoded(h), kdf)
  }

  datatype Parts = Parts(count: Bytes, salt: Bytes, hash: Bytes)

  /** The three fields behind the prefix, if both separators are there. */
  function Split(rest: Bytes): Option<Parts>
  {
    var d1 := FindByte(rest, DOLLAR, 0);
    if d1 == |rest| then None
    else
      var d2 := FindByte(rest, DOLLAR, d1 + 1);
      if d2 == |rest| then None else Some(Parts(rest[..d1], rest[d1 + 1..d2], rest[d2 + 1..]))
  }

  predicate FieldsMatch(password: Bytes, rest: Bytes, kdf: Kdf)
  {
    match Split(rest)
    case None => false
    case Some(f) => PartsMatch(password, f.count, f.salt, f.hash, kdf)
  }

  // ---- As the code runs them ----------------------------------------------------------------

  /** OR-ing the XOR of all byte pairs leaves 0 exactly when the strings agree. */
  method ConstantTimeEqual(a: Bytes, b: Bytes) returns (equal: bool)
    requires |a| == |b|
    ensures equal <==> a == b
  {
    var diff: nat := 0;
    for i := 0 to |a|
      invariant diff == 0 <==> a[..i] == b[..i]
      invariant diff < 256
    {
      var x := Xor(a[i], b[i]);
      XorZero(a[i], b[i]);
      OrZero(diff, x);
      BitConstants();
      XorBelow(a[i], b[i], 8);
      OrBelow(diff, x, 8);
      assert a[..i + 1] == a[..i] + [a[i]] && b[..i + 1] == b[..i] + [b[i]];
      diff := Or(diff, x);
    }
    assert a[..|a|] == a && b[..|b|] == b;
    equal := diff == 0;
  }

  method Hash(password: Bytes, salt: Option<Bytes>, kdf: Kdf) returns (stored: Bytes)
    ensures stored == Hashed(password, salt, kdf)
  {
    if salt.None? { return []; }
    var derived := kdf(password, salt.value, ITERATIONS, HASH_BYTES);
    if derived.None? { return []; }
    var saltEnc := Encode(salt.value);
    var hashEnc := Encode(derived.value);
    stored := PREFIX + Digits(ITERATIONS) + [DOLLAR] + saltEnc + [DOLLAR] + hashEnc;
  }

  method Verify(password: Bytes, encoded: Bytes, kdf: Kdf) returns (ok: bool)
    requires WellBehaved(kdf)
    ensures ok == Verified(password, encoded, kdf)
  {
    if !IsHashed(encoded) { return false; }
    ok := VerifyFields(password, encoded[15..], kdf);
  }

  /** `verify` after the prefix: split the fields. */
  method VerifyFields(password: Bytes, rest: Bytes, kdf: Kdf) returns (ok: bool)
    requires WellBehaved(kdf)
    ensures ok == FieldsMatch(password, rest, kdf)
  {
    var d1 := FindByte(rest, DOLLAR, 0);
    if d1 == |rest| { return false; }
    var d2 := FindByte(rest, DOLLAR, d1 + 1);
    if d2 == |rest| { return false; }
    assert Split(rest) == Some(Parts(rest[..d1], rest[d1 + 1..d2], rest[d2 + 1..]));
    ok := VerifyParts(password, rest[..d1], rest[d1 + 1..d2], rest[d2 + 1..], kdf);
  }

  /** Parse the iteration count, then decode, derive and compare. */
  method VerifyParts(password: Bytes, count: Bytes, saltB64: Bytes, hashB64: Bytes, kdf: Kdf)
    returns (ok: bool)
    requires WellBehaved(kdf)
    ensures ok == PartsMatch(password, count, saltB64, hashB64, kdf)
  {
    var iterations := Stoi(count);
    if iterations.None? || iterations.value <= 0 { return false; }
    ok := Derive(password, iterations.value, saltB64, hashB64, kdf);
  }

  method Derive(password: Bytes, iterations: int, saltB64: Bytes, hashB64: Bytes, kdf: Kdf)
    returns (ok: bool)
    requires WellBehaved(kdf)
    ensures ok == Matches(password, iterations, Decoded(saltB64), Decoded(hashB64), kdf)
  {
    var saltRaw := Decode(saltB64);
    var hashExpected := Decode(hashB64);
    if saltRaw == [] || hashExpected == [] { return false; }
    var derived := kdf(password, saltRaw, iterations, |hashExpected|);
    if derived.None? { return false; }
    ok := ConstantTimeEqual(derived.value, hashExpected);
  }

  // ---- Round trip ---------------------------------------------------------------------------

  ghost predicate NoDollar(s: Bytes) { forall i :: 0 <= i < |s| ==> s[i] != DOLLAR }

  /** Neither field of the stored form can contain the separator. */
  lemma EncodedHasNoDollar(data: Bytes)
    ensures NoDollar(Encoded(data))
  {
    SymbolsShape(data);
    EncodedPads(data);
  }

  lemma StoiDigits(n: nat)
    requires n < INT32_LIMIT
    ensures Stoi(Digits(n)) == Some(n)
  {
    var s := Digits(n);
    assert IsDigit(s[0]) && SkipSpace(s, 0) == 0;
    assert FirstNonDigit(s, 0) == |s|;
    assert s[0..|s|] == s;
    DigitsRoundTrip(n);
  }

  /** Leading space and one sign are skipped, and what follows the digits is ignored. */
  lemma StoiReads(space: Bytes, sign: Bytes, n: nat, rest: Bytes)
    requires forall i :: 0 <= i < |space| ==> IsSpace(space[i])
    requires sign == [] || sign == [PLUS] || sign == [MINUS]
    requires rest == [] || !IsDigit(rest[0])
    ensures var k: int := n;
      var v := if sign == [MINUS] then -k else k;
      Stoi(space + sign + Digits(n) + rest) == if -INT32_LIMIT <= v < INT32_LIMIT then Some(v) else None
  {
    DigitsRoundTrip(n);
    SignFound(space, sign, Digits(n), rest);
    StoiAt(space + sign + Digits(n) + rest, |space|, |sign|, Digits(n), n, sign == [MINUS]);
  }

  /** Where the space, the sign and the digits end. */
  lemma SignFound(space: Bytes, sign: Bytes, d: Bytes, rest: Bytes)
    requires forall i :: 0 <= i < |space| ==> IsSpace(space[i])
    requires sign == [] || sign == [PLUS] || sign == [MINUS]
    requires d != [] && AllDigits(d) && (rest == [] || !IsDigit(rest[0]))
    ensures var s, b := space + sign + d + rest, |space| + |sign|;
      && SkipSpace(s, 0) == |space| && FirstNonDigit(s, b) == b + |d| && s[b..b + |d|] == d
      && (sign == [] ==> s[|space|] != MINUS && s[|space|] != PLUS)
      && (sign != [] ==> s[|space|] == sign[0])
  {
    var s, b := space + sign + d + rest, |space| + |sign|;
    assert forall i :: 0 <= i < |space| ==> s[i] == space[i];
    assert sign != [] ==> s[|space|] == sign[0];
    assert forall i :: 0 <= i < |d| ==> s[b + i] == d[i];
    assert rest != [] ==> s[b + |d|] == rest[0];
    assert s[b] == d[0];
  }

  lemma StoiAt(s: Bytes, p: nat, signed: nat, d: Bytes, n: nat, negative: bool)
    requires signed <= 1 && d != [] && p + signed + |d| <= |s|
    requires SkipSpace(s, 0) == p && FirstNonDigit(s, p + signed) == p + signed + |d|
    requires s[p + signed..p + signed + |d|] == d && AllDigits(d) && Value(d) == n
    requires (signed == 1) == (s[p] == MINUS || s[p] == PLUS) && negative == (s[p] == MINUS)
    ensures var k: int := n;
      var v := if negative then -k else k;
      Stoi(s) == if -INT32_LIMIT <= v < INT32_LIMIT then Some(v) else None
  {
  }

  /** Where no digit follows the space and the sign there is no number. */
  lemma StoiNeedsDigits(space: Bytes, sign: Bytes, rest: Bytes)
    requires forall i :: 0 <= i < |space| ==> IsSpace(space[i])
    requires sign == [] || sign == [PLUS] || sign == [MINUS]
    requires rest != [] ==> !IsDigit(rest[0])
    requires rest != [] && sign == [] ==> !IsSpace(rest[0]) && rest[0] != PLUS && rest[0] != MINUS
    ensures Stoi(space + sign + rest) == None
  {
    var s := space + sign + rest;
    var b := |space| + |sign|;
    assert forall i :: 0 <= i < |space| ==> s[i] == space[i];
    assert sign != [] ==> s[|space|] == sign[0];
    assert rest != [] ==> s[b] == rest[0];
    assert SkipSpace(s, 0) == |space|;
    assert FirstNonDigit(s, b) == b;
  }

  lemma SplitFields(d: Bytes, e: Bytes, h: Bytes)
    requires NoDollar(d) && NoDollar(e) && d != []
    ensures var rest := d + [DOLLAR] + e + [DOLLAR] + h;
      && FindByte(rest, DOLLAR, 0) == |d| < |rest|
      && FindByte(rest, DOLLAR, |d| + 1) == |d| + 1 + |e| < |rest|
      && rest[..|d|] == d && rest[|d| + 1..|d| + 1 + |e|] == e && rest[|d| + 1 + |e| + 1..] == h
  {
    var rest := d + [DOLLAR] + e + [DOLLAR] + h;
    assert rest == d + [DOLLAR] + (e + [DOLLAR] + h);
    FindAfter(d, DOLLAR, e + [DOLLAR] + h, 0);
    FindAfter(d + [DOLLAR] + e, DOLLAR, h, |d| + 1);
  }

  lemma FieldsAt(rest: Bytes, d1: nat, d2: nat, d: Bytes, e: Bytes, h: Bytes)
    requires d1 < d2 < |rest|
    requires FindByte(rest, DOLLAR, 0) == d1 && FindByte(rest, DOLLAR, d1 + 1) == d2
    requires d == rest[..d1] && e == rest[d1 + 1..d2] && h == rest[d2 + 1..]
    ensures Split(rest) == Some(Parts(d, e, h))
  {
  }

  lemma FieldsSeen(password: Bytes, d: Bytes, e: Bytes, h: Bytes, rest: Bytes, kdf: Kdf)
    requires NoDollar(d) && NoDollar(e) && d != [] && rest == d + [DOLLAR] + e + [DOLLAR] + h
    ensures FieldsMatch(password, rest, kdf) <==> PartsMatch(password, d, e, h, kdf)
  {
    SplitFields(d, e, h);
    FieldsAt(rest, |d|, |d| + 1 + |e|, d, e, h);
  }

  lemma StoredShape(iterations: nat, salt: Bytes, hash: Bytes)
    ensures var s := Stored(iterations, salt, hash);
      && IsHashed(s)
      && s[15..] == Digits(iterations) + [DOLLAR] + Encoded(salt) + [DOLLAR] + Encoded(hash)
  {
    assert |PREFIX| == 15;
    assert Stored(iterations, salt, hash)
        == PREFIX + (Digits(iterations) + [DOLLAR] + Encoded(salt) + [DOLLAR] + Encoded(hash));
  }

  /** A stored form is accepted for exactly the passwords that derive its hash. */
  lemma StoredVerifiesIff(password: Bytes, iterations: nat, salt: Bytes, hash: Bytes, kdf: Kdf)
    requires 0 < iterations < INT32_LIMIT && salt != [] && hash != []
    ensures Verified(password, Stored(iterations, salt, hash), kdf)
        <==> kdf(password, salt, iterations, |hash|) == Some(hash)
  {
    StoredShape(iterations, salt, hash);
    EncodedHasNoDollar(salt);
    FieldsSeen(password, Digits(iterations), Encoded(salt), Encoded(hash),
               Stored(iterations, salt, hash)[15..], kdf);
    StoiDigits(iterations);
    RoundTrip(salt);
    RoundTrip(hash);
  }

  /** For every password, salt and deterministic derivation: what `hash` stores is accepted for that
      password, and for another exactly when both derive the same bytes. When the random generator
      or the derivation fails, what is stored is accepted for none. */
  lemma HashVerifiesIff(password: Bytes, other: Bytes, salt: Option<Bytes>, kdf: Kdf)
    requires WellBehaved(kdf) && (salt.Some? ==> |salt.value| == SALT_BYTES)
    ensures Verified(other, Hashed(password, salt, kdf), kdf)
        <==>
          && salt.Some? && kdf(password, salt.value, ITERATIONS, HASH_BYTES).Some?
          && kdf(other, salt.value, ITERATIONS, HASH_BYTES) == kdf(password, salt.value, ITERATIONS, HASH_BYTES)
  {
    if salt.Some? && kdf(password, salt.value, ITERATIONS, HASH_BYTES).Some? {
      var hash := kdf(password, salt.value, ITERATIONS, HASH_BYTES).value;
      StoredVerifiesIff(other, ITERATIONS, salt.value, hash, kdf);
    }
  }

  // ---- Exactly what is accepted -------------------------------------------------------------

  /** A form with these fields, of which the first two are free of the separator, and a positive count of
      32 bits, whose salt and hash decode to something, and whose hash the password derives. */
  predicate AcceptedAs(password: Bytes, encoded: Bytes, kdf: Kdf, d: Bytes, e: Bytes, h: Bytes)
  {
    && encoded == PREFIX + (d + [DOLLAR] + e + [DOLLAR] + h)
    && (forall i :: 0 <= i < |d| ==> d[i] != DOLLAR) && (forall i :: 0 <= i < |e| ==> e[i] != DOLLAR)
    && Stoi(d).Some? && Stoi(d).value > 0 && Decoded(e) != [] && Decoded(h) != []
    && kdf(password, Decoded(e), Stoi(d).value, |Decoded(h)|) == Some(Decoded(h))
  }

  /** `verify` accepts exactly the forms it should, whatever bytes it is given. */
  lemma AcceptedIff(password: Bytes, encoded: Bytes, kdf: Kdf)
    ensures Verified(password, encoded, kdf)
        <==> exists d, e, h :: AcceptedAs(password, encoded, kdf, d, e, h)
  {
    if Verified(password, encoded, kdf) { AcceptedShape(password, encoded, kdf); }
    if d, e, h :| AcceptedAs(password, encoded, kdf, d, e, h) {
      AcceptedFields(password, encoded, kdf, d, e, h);
    }
  }

  lemma AcceptedShape(password: Bytes, encoded: Bytes, kdf: Kdf)
    requires Verified(password, encoded, kdf)
    ensures exists d, e, h :: AcceptedAs(password, encoded, kdf, d, e, h)
  {
    var rest := encoded[15..];
    var f := Split(rest).value;
    SplitShape(rest, f);
    Rejoins(encoded, PREFIX, rest);
    assert AcceptedAs(password, encoded, kdf, f.count, f.salt, f.hash);
  }

  lemma Rejoins(encoded: Bytes, prefix: Bytes, rest: Bytes)
    requires |encoded| > 15 && encoded[..15] == prefix && rest == encoded[15..]
    ensures encoded == prefix + rest
  {
  }

  lemma SplitShape(rest: Bytes, f: Parts)
    requires Split(rest) == Some(f)
    ensures rest == f.count + [DOLLAR] + f.salt + [DOLLAR] + f.hash
    ensures forall i :: 0 <= i < |f.count| ==> f.count[i] != DOLLAR
    ensures forall i :: 0 <= i < |f.salt| ==> f.salt[i] != DOLLAR
  {
    var d1 := FindByte(rest, DOLLAR, 0);
    var d2 := FindByte(rest, DOLLAR, d1 + 1);
    assert rest[d1] == DOLLAR && rest[d2] == DOLLAR;
    assert f == Parts(rest[..d1], rest[d1 + 1..d2], rest[d2 + 1..]);
  }

  lemma AcceptedFields(password: Bytes, encoded: Bytes, kdf: Kdf, d: Bytes, e: Bytes, h: Bytes)
    requires AcceptedAs(password, encoded, kdf, d, e, h)
    ensures Verified(password, encoded, kdf)
  {
    var rest := d + [DOLLAR] + e + [DOLLAR] + h;
    assert |PREFIX| == 15 && encoded[..15] == PREFIX && encoded[15..] == rest;
    NoNumberInNothing();
    FieldsSeen(password, d, e, h, rest, kdf);
  }

  lemma NoNumberInNothing()
    ensures Stoi([]) == None
  {
  }
}

/** What signing and verifying promise each other. */
module JwtProofs {
  import opened Bytes
  import opened Base64Url
  import opened Scan
  import opened Jwt
  import B = Blacklist
  import P = BlacklistProofs

  // ---- Splitting a signed token -------------------------------------------------------------

  ghost predicate NoDot(s: Bytes) { forall i :: 0 <= i < |s| ==> s[i] != DOT }

  lemma EncodedHasNoDot(data: Bytes)
    ensures NoDot(UrlEncoded(data))
  {
    UrlEncodedShape(data);
  }

  /** A token made of three dot-free parts is split into them. */
  lemma SplitThree(h: Bytes, p: Bytes, s: Bytes)
    requires NoDot(h) && NoDot(p) && NoDot(s)
    ensures var token := h + [DOT] + p + [DOT] + s;
      && FindByte(token, DOT, 0) == |h|
      && FindByte(token, DOT, |h| + 1) == |h| + 1 + |p|
      && FindByte(token, DOT, |h| + 1 + |p| + 1) == |token|
      && token[|h| + 1..|h| + 1 + |p|] == p
      && token[..|h| + 1 + |p|] == h + [DOT] + p
      && token[|h| + 1 + |p| + 1..] == s
  {
    var token := h + [DOT] + p + [DOT] + s;
    ThreeSlices(h, p, s, token);
    FindAfter(h, DOT, p + [DOT] + s, 0);
    assert forall i :: |h| + 1 <= i < |h + [DOT] + p| ==> (h + [DOT] + p)[i] == p[i - |h| - 1];
    FindAfter(h + [DOT] + p, DOT, s, |h| + 1);
    assert forall i :: |h| + 1 + |p| + 1 <= i < |token| ==> token[i] == s[i - |h| - |p| - 2];
    FindNone(token, DOT, |h| + 1 + |p| + 1);
  }

  lemma ThreeSlices(h: Bytes, p: Bytes, s: Bytes, token: Bytes)
    requires token == h + [DOT] + p + [DOT] + s
    ensures token == h + [DOT] + (p + [DOT] + s)
    ensures token[|h| + 1..|h| + 1 + |p|] == p
    ensures token[..|h| + 1 + |p|] == h + [DOT] + p
    ensures token[|h| + 1 + |p| + 1..] == s
  {
  }

  // ---- Reading a claim ----------------------------------------------------------------------

  /** The text before a claim's key does not contain the key: no quote in it is followed by the
      key's first letter, nor is it the last byte. */
  ghost predicate Hides(before: Bytes, letter: Byte)
  {
    forall i :: 0 <= i < |before| && before[i] == QUOTE ==> i + 1 < |before| && before[i + 1] != letter
  }

  lemma SubjectHides()
    ensures |SUBJECT| == 21 && Hides(SUBJECT, 101) && Hides(SUBJECT[..15], 105)
    ensures SUBJECT[15..] == IAT_KEY + [COLON]
  {
    assert SUBJECT[0] != QUOTE && SUBJECT[2] != QUOTE && SUBJECT[3] != QUOTE && SUBJECT[4] != QUOTE;
    assert SUBJECT[6] != QUOTE && SUBJECT[8] != QUOTE && SUBJECT[9] != QUOTE && SUBJECT[10] != QUOTE;
    assert SUBJECT[11] != QUOTE && SUBJECT[12] != QUOTE && SUBJECT[14] != QUOTE;
    assert SUBJECT[16] != QUOTE && SUBJECT[17] != QUOTE && SUBJECT[18] != QUOTE && SUBJECT[20] != QUOTE;
  }

  /** A key in quotes, first hidden and then present, is found where it stands. */
  lemma FindsKey(before: Bytes, key: Bytes, after: Bytes)
    requires |key| >= 2 && key[0] == QUOTE && Hides(before, key[1])
    ensures FindText(before + key + after, key, 0) == |before|
  {
    var s := before + key + after;
    assert MatchesAt(s, key, |before|) by { assert s[|before|..|before| + |key|] == key; }
    forall k: nat | k < |before| ensures !MatchesAt(s, key, k) {
      NoMatchInside(before, key, after, k);
    }
  }

  lemma NoMatchInside(before: Bytes, key: Bytes, after: Bytes, k: nat)
    requires |key| >= 2 && key[0] == QUOTE && Hides(before, key[1]) && k < |before|
    ensures !MatchesAt(before + key + after, key, k)
  {
    var s := before + key + after;
    assert s[k] == before[k];
    assert k + 1 < |before| ==> s[k + 1] == before[k + 1];
    if k + |key| <= |s| {
      var m := s[k..k + |key|];
      assert m[0] == s[k] && m[1] == s[k + 1];
    }
  }

  /** What a printed number is read back as: one that is not positive or does not fit in 64 bits is read
      as 0. */
  function Readable(n: int): nat { if 0 < n < INT64_LIMIT then n else 0 }

  /** Digits behind a colon, ended by a non-digit, are read as their value. */
  lemma ReadsNumber(before: Bytes, key: Bytes, n: int, after: Bytes)
    requires |key| >= 2 && key[0] == QUOTE && Hides(before, key[1])
    requires forall i :: 0 <= i < |key| ==> key[i] != COLON
    requires after != [] && !IsDigit(after[0])
    ensures ClaimIn(before + (key + [COLON] + Decimal(n) + after), key) == Readable(n)
  {
    var d := Decimal(n);
    var s := before + (key + [COLON] + d + after);
    var c := |before| + |key|;
    NumberRegrouped(before, key, d, after);
    KeyAndColon(before, key, d + after);
    NumberBehind(s, key, |before|, c, n, after);
  }

  lemma NumberBehind(s: Bytes, key: Bytes, k: nat, c: nat, n: int, after: Bytes)
    requires k <= c < |s| && s[c + 1..] == Decimal(n) + after
    requires FindText(s, key, 0) == k && FindByte(s, COLON, k) == c
    requires after != [] && !IsDigit(after[0])
    ensures ClaimIn(s, key) == Readable(n)
  {
    var d := Decimal(n);
    assert s[c + 1] == s[c + 1..][0] == d[0] && !IsBlank(d[0]);
    NumberAt(s, c + 1, n, after);
    ClaimFound(s, key, k, c);
  }

  /** So are digits with spaces and tabs between them and the colon. */
  lemma ReadsNumberBehindBlanks(before: Bytes, key: Bytes, blanks: Bytes, n: int, after: Bytes)
    requires |key| >= 2 && key[0] == QUOTE && Hides(before, key[1])
    requires forall i :: 0 <= i < |key| ==> key[i] != COLON
    requires forall i :: 0 <= i < |blanks| ==> IsBlank(blanks[i])
    requires after != [] && !IsDigit(after[0])
    ensures ClaimIn(before + key + [COLON] + (blanks + Decimal(n) + after), key) == Readable(n)
  {
    var d := Decimal(n);
    var s, c := before + key + [COLON] + (blanks + d + after), |before| + |key|;
    KeyAndColon(before, key, blanks + d + after);
    assert s[c + 1..] == blanks + d + after;
    BlanksSkipped(s, c + 1, blanks, d + after);
    var b := c + 1 + |blanks|;
    assert s[b..] == d + after;
    NumberAt(s, b, n, after);
    ClaimBehind(s, key, |before|, c, b);
  }

  lemma BlanksSkipped(s: Bytes, from: nat, blanks: Bytes, rest: Bytes)
    requires from <= |s| && s[from..] == blanks + rest && rest != [] && !IsBlank(rest[0])
    requires forall i :: 0 <= i < |blanks| ==> IsBlank(blanks[i])
    ensures SkipBlanks(s, from) == from + |blanks|
  {
    assert forall i :: 0 <= i < |blanks| ==> s[from + i] == s[from..][i] == blanks[i];
    assert s[from + |blanks|] == s[from..][|blanks|] == rest[0];
  }

  lemma ClaimBehind(s: Bytes, key: Bytes, k: nat, c: nat, b: nat)
    requires k <= c && c + 1 <= b <= |s| && k < |s| && c < |s| && SkipBlanks(s, c + 1) == b
    requires FindText(s, key, 0) == k && FindByte(s, COLON, k) == c
    ensures ClaimIn(s, key) == ParseInt64(s[b..FirstNonDigit(s, b)])
  {
  }

  lemma NumberRegrouped(before: Bytes, key: Bytes, d: Bytes, after: Bytes)
    ensures var s := before + (key + [COLON] + d + after);
      s == before + key + [COLON] + (d + after) && s[|before| + |key| + 1..] == d + after
  {
  }

  /** The claim's text starts right behind the colon when no blank follows it. */
  lemma ClaimFound(s: Bytes, key: Bytes, k: nat, c: nat)
    requires k <= c && c + 1 < |s| && !IsBlank(s[c + 1])
    requires FindText(s, key, 0) == k && FindByte(s, COLON, k) == c
    ensures ClaimIn(s, key) == ParseInt64(s[c + 1..FirstNonDigit(s, c + 1)])
  {
  }

  lemma KeyAndColon(before: Bytes, key: Bytes, rest: Bytes)
    requires |key| >= 2 && key[0] == QUOTE && Hides(before, key[1])
    requires forall i :: 0 <= i < |key| ==> key[i] != COLON
    ensures var s := before + key + [COLON] + rest;
      FindText(s, key, 0) == |before| && FindByte(s, COLON, |before|) == |before| + |key|
  {
    FindsKey(before, key, [COLON] + rest);
    assert before + key + ([COLON] + rest) == before + key + [COLON] + rest;
    FindAfter(before + key, COLON, rest, |before|);
  }

  lemma NumberAt(s: Bytes, b: nat, n: int, after: Bytes)
    requires b <= |s| && s[b..] == Decimal(n) + after
    requires after != [] && !IsDigit(after[0])
    ensures ParseInt64(s[b..FirstNonDigit(s, b)]) == Readable(n)
  {
    var d := Decimal(n);
    var e := FirstNonDigit(s, b);
    assert forall i :: 0 <= i < |d| ==> s[b + i] == s[b..][i] == d[i];
    assert s[b + |d|] == s[b..][|d|] == after[0];
    if n >= 0 {
      assert e == b + |d|;
      assert s[b..e] == d;
      DigitsRoundTrip(n);
    } else {
      assert e == b;
      assert s[b..e] == [];
    }
  }

  lemma KeysHaveNoColon()
    ensures |EXP_KEY| == |IAT_KEY| == 5
    ensures EXP_KEY[0] == QUOTE && EXP_KEY[1] == 101 && IAT_KEY[0] == QUOTE && IAT_KEY[1] == 105
    ensures forall i :: 0 <= i < 5 ==> EXP_KEY[i] != COLON
    ensures forall i :: 0 <= i < 5 ==> IAT_KEY[i] != COLON
    ensures EXP_PART == [44] + EXP_KEY + [COLON] && CLOSE == [125]
  {
    assert EXP_KEY[2] != COLON && EXP_KEY[3] != COLON && EXP_KEY[4] != COLON;
    assert IAT_KEY[2] != COLON && IAT_KEY[3] != COLON && IAT_KEY[4] != COLON;
    var key := EXP_KEY;
    assert EXP_PART[1..6] == key;
  }

  lemma PayloadExp(now: int, exp: int)
    ensures ClaimIn(Payload(now, exp), EXP_KEY) == Readable(exp)
  {
    KeysHaveNoColon();
    SubjectHides();
    ExpInText(SUBJECT, Decimal(now), EXP_KEY, exp, CLOSE);
    assert Payload(now, exp) == TextWithExp(SUBJECT, Decimal(now), EXP_KEY, exp, CLOSE);
  }

  function TextWithExp(subject: Bytes, d: Bytes, key: Bytes, exp: int, close: Bytes): Bytes
  {
    subject + d + ([44] + key + [COLON]) + Decimal(exp) + close
  }

  lemma ExpInText(subject: Bytes, d: Bytes, key: Bytes, exp: int, close: Bytes)
    requires |key| >= 2 && key[0] == QUOTE
    requires Hides(subject, key[1]) && (forall i :: 0 <= i < |d| ==> d[i] != QUOTE)
    requires forall i :: 0 <= i < |key| ==> key[i] != COLON
    requires close != [] && !IsDigit(close[0])
    ensures ClaimIn(TextWithExp(subject, d, key, exp, close), key) == Readable(exp)
  {
    HidesOn(subject, d + [44], key[1]);
    ReadsNumber(subject + (d + [44]), key, exp, close);
    ExpRegrouped(subject, d, key, Decimal(exp), close);
  }

  lemma ExpRegrouped(subject: Bytes, d: Bytes, key: Bytes, e: Bytes, close: Bytes)
    ensures subject + d + ([44] + key + [COLON]) + e + close
         == subject + (d + [44]) + (key + [COLON] + e + close)
  {
  }

  lemma HidesOn(a: Bytes, b: Bytes, letter: Byte)
    requires Hides(a, letter) && forall i :: 0 <= i < |b| ==> b[i] != QUOTE
    ensures Hides(a + b, letter)
  {
    var s := a + b;
    assert forall i :: |a| <= i < |s| ==> s[i] == b[i - |a|];
    forall i | 0 <= i < |s| && s[i] == QUOTE ensures i + 1 < |s| && s[i + 1] != letter {
      assert i < |a|;
      assert s[i + 1] == a[i + 1];
    }
  }

  lemma PayloadIat(now: int, exp: int)
    ensures ClaimIn(Payload(now, exp), IAT_KEY) == Readable(now)
  {
    KeysHaveNoColon();
    SubjectHides();
    IatInText(SUBJECT[..15], IAT_KEY, now, EXP_PART + Decimal(exp) + CLOSE);
    assert SUBJECT == SUBJECT[..15] + (IAT_KEY + [COLON]);
    PayloadRegrouped(SUBJECT[..15], IAT_KEY, Decimal(now), EXP_PART, Decimal(exp), CLOSE);
  }

  lemma PayloadRegrouped(b: Bytes, key: Bytes, d: Bytes, part: Bytes, e: Bytes, close: Bytes)
    ensures b + (key + [COLON]) + d + part + e + close == b + (key + [COLON] + d + (part + e + close))
  {
  }

  lemma IatInText(before: Bytes, key: Bytes, now: int, after: Bytes)
    requires |key| >= 2 && key[0] == QUOTE && Hides(before, key[1])
    requires forall i :: 0 <= i < |key| ==> key[i] != COLON
    requires after != [] && !IsDigit(after[0])
    ensures ClaimIn(before + (key + [COLON] + Decimal(now) + after), key) == Readable(now)
  {
    ReadsNumber(before, key, now, after);
  }

  // ---- Round trips --------------------------------------------------------------------------

  lemma ClaimAt(token: Bytes, part: Bytes, dot1: nat, dot2: nat, key: Bytes)
    requires dot1 < dot2 < |token| && part == token[dot1 + 1..dot2]
    requires FindByte(token, DOT, 0) == dot1 && FindByte(token, DOT, dot1 + 1) == dot2
    ensures Claim(token, key) == ClaimIn(UrlDecoded(part), key)
  {
  }

  /** What the readers see in a token of three dot-free parts. */
  lemma ClaimSeen(h: Bytes, p: Bytes, s: Bytes, token: Bytes, key: Bytes)
    requires NoDot(h) && NoDot(p) && NoDot(s) && token == h + [DOT] + p + [DOT] + s
    ensures Claim(token, key) == ClaimIn(UrlDecoded(p), key)
  {
    SplitThree(h, p, s);
    ClaimAt(token, p, |h|, |h| + 1 + |p|, key);
  }

  lemma SignatureSeen(h: Bytes, p: Bytes, s: Bytes, secret: Bytes, hmac: Hmac)
    requires NoDot(h) && NoDot(p) && NoDot(s)
    ensures SignatureValid(h + [DOT] + p + [DOT] + s, secret, hmac)
        <==> s == UrlEncoded(hmac(secret, h + [DOT] + p))
  {
    SplitThree(h, p, s);
    var token := h + [DOT] + p + [DOT] + s;
    assert |h| < |token| && |h| + 1 + |p| < |token|;
  }

  lemma SignedSeen(signer: Bytes, expireSeconds: int, now: int, hmac: Hmac, key: Bytes, secret: Bytes)
    ensures var token, exp := Signed(signer, expireSeconds, now, hmac), now + expireSeconds;
      && Claim(token, key) == ClaimIn(Payload(now, exp), key)
      && (SignatureValid(token, secret, hmac)
          <==> hmac(signer, SigInput(now, exp)) == hmac(secret, SigInput(now, exp)))
  {
    var body, input := Payload(now, now + expireSeconds), SigInput(now, now + expireSeconds);
    EncodedHasNoDot(HEADER);
    EncodedHasNoDot(body);
    EncodedHasNoDot(hmac(signer, input));
    ClaimSeen(UrlEncoded(HEADER), UrlEncoded(body), UrlEncoded(hmac(signer, input)),
              Signed(signer, expireSeconds, now, hmac), key);
    SignatureSeen(UrlEncoded(HEADER), UrlEncoded(body), UrlEncoded(hmac(signer, input)), secret, hmac);
    UrlRoundTrip(body);
    if UrlEncoded(hmac(signer, input)) == UrlEncoded(hmac(secret, input)) {
      UrlEncodeInjective(hmac(signer, input), hmac(secret, input));
    }
  }

  /** For any secret and keyed hash, the claims read back from a signed token are the expiry and the
      issue time it was made with, as long as they fit in 64 bits; a sum or time that is not
      positive reads as 0. */
  lemma SignedClaims(secret: Bytes, expireSeconds: int, now: int, hmac: Hmac)
    requires now < INT64_LIMIT && now + expireSeconds < INT64_LIMIT
    ensures var token, exp := Signed(secret, expireSeconds, now, hmac), now + expireSeconds;
      && GetExp(token) == (if exp > 0 then exp else 0)
      && GetIat(token) == (if now > 0 then now else 0)
  {
    SignedSeen(secret, expireSeconds, now, hmac, EXP_KEY, secret);
    SignedSeen(secret, expireSeconds, now, hmac, IAT_KEY, secret);
    PayloadExp(now, now + expireSeconds);
    PayloadIat(now, now + expireSeconds);
  }

  /** Exactly when a token made by `sign` is accepted later: under a secret with the same keyed hash
      of its content, before a positive expiry, not issued before the configured start, and not
      revoked. */
  lemma SignedVerifiesIff(signer: Bytes, expireSeconds: int, issued: int, hmac: Hmac, secret: Bytes,
                          now: int, startTime: int, entries: seq<B.Entry>)
    requires issued < INT64_LIMIT && issued + expireSeconds < INT64_LIMIT
    ensures var token, exp := Signed(signer, expireSeconds, issued, hmac), issued + expireSeconds;
      var input := SigInput(issued, exp);
      Verified(token, secret, hmac, now, startTime, entries)
      <==>
      && hmac(signer, input) == hmac(secret, input)
      && exp > 0 && now < exp
      && !(startTime > 0 && issued > 0 && issued < startTime)
      && !B.Has(entries, token)
  {
    SignedClaims(signer, expireSeconds, issued, hmac);
    SignedSeen(signer, expireSeconds, issued, hmac, EXP_KEY, secret);
  }

  /** An accepted token is its first two parts and the encoded keyed hash of exactly those. */
  lemma AcceptedTokenShape(token: Bytes, secret: Bytes, hmac: Hmac, now: int, startTime: int,
                           entries: seq<B.Entry>)
    requires Verified(token, secret, hmac, now, startTime, entries)
    ensures exists h, p ::
      && NoDot(h) && NoDot(p)
      && token == h + [DOT] + p + [DOT] + UrlEncoded(hmac(secret, h + [DOT] + p))
  {
    SignedShape(token, secret, hmac);
  }

  /** The payload names `key`, and behind the next colon and any blanks stands the number n. */
  ghost predicate Carries(payload: Bytes, key: Bytes, n: nat)
  {
    exists k: nat, c: nat, b: nat, e: nat ::
      && k <= c < b <= e <= |payload|
      && MatchesAt(payload, key, k) && (forall i :: 0 <= i < k ==> !MatchesAt(payload, key, i))
      && payload[c] == COLON && (forall i :: k <= i < c ==> payload[i] != COLON)
      && (forall i :: c < i < b ==> IsBlank(payload[i])) && AllDigits(payload[b..e])
      && (e < |payload| ==> !IsDigit(payload[e]))
      && Value(payload[b..e]) == n
  }

  lemma ReadMeansCarried(payload: Bytes, key: Bytes)
    requires ClaimIn(payload, key) > 0
    ensures Carries(payload, key, ClaimIn(payload, key)) && ClaimIn(payload, key) < INT64_LIMIT
  {
    var k := FindText(payload, key, 0);
    KeyAndColonFound(payload, key, k);
    var c := FindByte(payload, COLON, k);
    var b := SkipBlanks(payload, c + 1);
    var e := FirstNonDigit(payload, b);
    ClaimBehind(payload, key, k, c, b);
    Spelled(payload[b..e], ClaimIn(payload, key));
    CarriedAt(payload, key, k, c, b, e);
  }

  lemma KeyAndColonFound(payload: Bytes, key: Bytes, k: nat)
    requires ClaimIn(payload, key) > 0 && k == FindText(payload, key, 0)
    ensures k < |payload| && FindByte(payload, COLON, k) < |payload|
  {
  }

  lemma Spelled(digits: Bytes, n: nat)
    requires AllDigits(digits) && ParseInt64(digits) == n > 0
    ensures Value(digits) == n < INT64_LIMIT
  {
  }

  lemma CarriedAt(payload: Bytes, key: Bytes, k: nat, c: nat, b: nat, e: nat)
    requires k <= c < |payload| && k < |payload| && k == FindText(payload, key, 0)
    requires c == FindByte(payload, COLON, k) && b == SkipBlanks(payload, c + 1)
    requires e == FirstNonDigit(payload, b) && AllDigits(payload[b..e])
    ensures Carries(payload, key, Value(payload[b..e]))
  {
    assert MatchesAt(payload, key, k) && payload[c] == COLON;
  }

  /** `h` and `p` are the token's parts before its first and between its first two dots. */
  predicate Leads(token: Bytes, h: Bytes, p: Bytes)
  {
    && |h| + |p| + 2 <= |token| && token[..|h| + |p| + 2] == h + [DOT] + p + [DOT]
    && (forall i :: 0 <= i < |h| ==> h[i] != DOT) && (forall i :: 0 <= i < |p| ==> p[i] != DOT)
  }

  ghost predicate CarriesExpiryAfter(payload: Bytes, now: int)
  {
    exists n: nat :: Carries(payload, EXP_KEY, n) && n > 0 && now < n && n < INT64_LIMIT
  }

  /** Whatever bytes it consists of, an accepted token carries, between its first two dots, an expiry that
      fits in 64 bits and lies in the future. */
  lemma AcceptedCarriesExpiry(token: Bytes, secret: Bytes, hmac: Hmac, now: int, startTime: int,
                              entries: seq<B.Entry>)
    requires Verified(token, secret, hmac, now, startTime, entries)
    ensures exists h, p :: Leads(token, h, p) && CarriesExpiryAfter(UrlDecoded(p), now)
  {
    ExpiryCarried(token, now);
  }

  lemma ExpiryCarried(token: Bytes, now: int)
    requires GetExp(token) != 0 && now < GetExp(token)
    ensures exists h, p :: Leads(token, h, p) && CarriesExpiryAfter(UrlDecoded(p), now)
  {
    var h, p := LeadingParts(token, EXP_KEY);
    ReadMeansCarried(UrlDecoded(p), EXP_KEY);
    assert CarriesExpiryAfter(UrlDecoded(p), now);
  }

  lemma LeadingParts(token: Bytes, key: Bytes) returns (h: Bytes, p: Bytes)
    requires Claim(token, key) != 0
    ensures Leads(token, h, p) && Claim(token, key) == ClaimIn(UrlDecoded(p), key)
  {
    var dot1 := FindByte(token, DOT, 0);
    DotsThere(token, key, dot1);
    var dot2 := FindByte(token, DOT, dot1 + 1);
    h, p := token[..dot1], token[dot1 + 1..dot2];
    ClaimAt(token, p, dot1, dot2, key);
    PartsLead(token, dot1, dot2, h, p);
  }

  lemma DotsThere(token: Bytes, key: Bytes, dot1: nat)
    requires Claim(token, key) != 0 && dot1 == FindByte(token, DOT, 0)
    ensures dot1 < |token| && FindByte(token, DOT, dot1 + 1) < |token|
  {
  }

  lemma PartsLead(token: Bytes, dot1: nat, dot2: nat, h: Bytes, p: Bytes)
    requires dot1 < dot2 < |token| && token[dot1] == DOT && token[dot2] == DOT
    requires h == token[..dot1] && p == token[dot1 + 1..dot2]
    requires (forall i :: 0 <= i < dot1 ==> token[i] != DOT) && (forall i :: dot1 < i < dot2 ==> token[i] != DOT)
    ensures Leads(token, h, p)
  {
  }

  lemma SignedShape(token: Bytes, secret: Bytes, hmac: Hmac)
    requires SignatureValid(token, secret, hmac)
    ensures exists h, p ::
      && NoDot(h) && NoDot(p)
      && token == h + [DOT] + p + [DOT] + UrlEncoded(hmac(secret, h + [DOT] + p))
  {
    var dot1 := FindByte(token, DOT, 0);
    var dot2 := FindByte(token, DOT, dot1 + 1);
    var h, p := token[..dot1], token[dot1 + 1..dot2];
    PartsOf(token, dot1, dot2, h, p, token[dot2 + 1..]);
    assert NoDot(h) && NoDot(p);
  }

  lemma PartsOf(token: Bytes, dot1: nat, dot2: nat, h: Bytes, p: Bytes, s: Bytes)
    requires dot1 < dot2 < |token| && token[dot1] == DOT && token[dot2] == DOT
    requires h == token[..dot1] && p == token[dot1 + 1..dot2] && s == token[dot2 + 1..]
    ensures token[..dot2] == h + [DOT] + p
    ensures token == h + [DOT] + p + [DOT] + s
  {
  }

  // ---- Revocation, end to end ---------------------------------------------------------------

  /** The signature and issue-time checks, which do not involve the table. */
  ghost predicate Sound(token: Bytes, secret: Bytes, hmac: Hmac, startTime: int)
  {
    SignatureValid(token, secret, hmac) && !IssuedBeforeStart(token, startTime)
  }

  /** After any admissible sequence of revocations, cleanups, loads and limit changes, whose expiries
      are the tokens' own, `verify` accepts exactly the sound, unexpired tokens that were never
      revoked, together with those that were evicted and not put back. */
  lemma VerifyAgainstHistory(ops: seq<P.Op>, start: int, exp: P.Expiry, token: Bytes, secret: Bytes,
                             hmac: Hmac, now: int, startTime: int)
    requires exp(token) == GetExp(token)
    requires P.AllAdmissible(ops, start, exp) && P.Run(ops, start, exp).clock <= now
    ensures var m := P.Run(ops, start, exp);
      Verified(token, secret, hmac, now, startTime, m.es)
      <==>
      && Sound(token, secret, hmac, startTime) && GetExp(token) != 0 && now < GetExp(token)
      && (token !in m.ever || token in m.lost)
  {
    var m := P.Run(ops, start, exp);
    P.ReachableInv(ops, start, exp);
    P.AgreesWithHistoryIff(ops, start, exp, token, Sound(token, secret, hmac, startTime), now);
    assert token in m.lost ==> !B.Has(m.es, token);
  }
}

/** Signing, reading and verifying tokens in the compact form of section 7.1 of RFC 7515. The keyed
    hash is an arbitrary function of secret and message. */
module Jwt {
  import opened Bytes
  import opened Base64Url
  import opened Scan
  import Blacklist

  type Hmac = (Bytes, Bytes) -> Bytes

  const DOT: Byte := 46
  const QUOTE: Byte := 34
  const COLON: Byte := 58

  const HEADER: Bytes := Text("{\"alg\":\"HS256\",\"typ\":\"JWT\"}")
  const SUBJECT: Bytes := Text("{\"sub\":\"admin\",\"iat\":")
  const EXP_PART: Bytes := Text(",\"exp\":")
  const CLOSE: Bytes := Text("}")
  const EXP_KEY: Bytes := Text("\"exp\"")
  const IAT_KEY: Bytes := Text("\"iat\"")

  // ---- Tokens -------------------------------------------------------------------------------

  function Payload(now: int, exp: int): Bytes
  {
    SUBJECT + Decimal(now) + EXP_PART + Decimal(exp) + CLOSE
  }

  function SigInput(now: int, exp: int): Bytes
  {
    UrlEncoded(HEADER) + [DOT] + UrlEncoded(Payload(now, exp))
  }

  function Signed(secret: Bytes, expireSeconds: int, now: int, hmac: Hmac): Bytes
  {
    Compact(SigInput(now, now + expireSeconds), secret, hmac)
  }

  /** The first two parts of a token followed by their signature. */
  function Compact(input: Bytes, secret: Bytes, hmac: Hmac): Bytes
  {
    input + [DOT] + UrlEncoded(hmac(secret, input))
  }

  /** The number after `key` in a payload, or 0. */
  ghost function ClaimIn(payload: Bytes, key: Bytes): nat
  {
    var k := FindText(payload, key, 0);
    if k == |payload| then 0
    else
      var c := FindByte(payload, COLON, k);
      if c == |payload| then 0
      else
        var b := SkipBlanks(payload, c + 1);
        ParseInt64(payload[b..FirstNonDigit(payload, b)])
  }

  ghost function Claim(token: Bytes, key: Bytes): nat
  {
    var dot1 := FindByte(token, DOT, 0);
    if dot1 == |token| then 0
    else
      var dot2 := FindByte(token, DOT, dot1 + 1);
      if dot2 == |token| then 0
      else ClaimIn(UrlDecoded(token[dot1 + 1..dot2]), key)
  }

  ghost function GetExp(token: Bytes): nat { Claim(token, EXP_KEY) }

  ghost function GetIat(token: Bytes): nat { Claim(token, IAT_KEY) }

  /** Three parts, and the third is the encoded keyed hash of the first two. */
  predicate SignatureValid(token: Bytes, secret: Bytes, hmac: Hmac)
  {
    var dot1 := FindByte(token, DOT, 0);
    dot1 < |token| &&
    var dot2 := FindByte(token, DOT, dot1 + 1);
    && dot2 < |token|
    && FindByte(token, DOT, dot2 + 1) == |token|
    && token[dot2 + 1..] == UrlEncoded(hmac(secret, token[..dot2]))
  }

  ghost predicate IssuedBeforeStart(token: Bytes, startTime: int)
  {
    startTime > 0 && GetIat(token) > 0 && GetIat(token) < startTime
  }

  ghost predicate Verified(token: Bytes, secret: Bytes, hmac: Hmac, now: int, startTime: int,
                           entries: seq<Blacklist.Entry>)
  {
    && SignatureValid(token, secret, hmac)
    && GetExp(token) != 0 && now < GetExp(token)
    && !IssuedBeforeStart(token, startTime)
    && !Blacklist.Has(entries, token)
  }

  // ---- As the code runs them ----------------------------------------------------------------

  /** Header and payload, encoded and joined. */
  method BuildInput(now: int, exp: int) returns (sigInput: Bytes)
    ensures sigInput == SigInput(now, exp)
  {
    var payload := SUBJECT + Decimal(now) + EXP_PART + Decimal(exp) + CLOSE;
    var headerEnc := UrlEncode(HEADER);
    var payloadEnc := UrlEncode(payload);
    sigInput := headerEnc + [DOT] + payloadEnc;
  }

  method Sign(secret: Bytes, expireSeconds: int, now: int, hmac: Hmac) returns (token: Bytes)
    ensures token == Signed(secret, expireSeconds, now, hmac)
  {
    var exp := now + expireSeconds;
    var sigInput := BuildInput(now, exp);
    token := AddSignature(sigInput, secret, hmac);
    assert token == Compact(SigInput(now, now + expireSeconds), secret, hmac);
  }

  method AddSignature(sigInput: Bytes, secret: Bytes, hmac: Hmac) returns (token: Bytes)
    ensures token == Compact(sigInput, secret, hmac)
  {
    var sig := UrlEncode(hmac(secret, sigInput));
    token := sigInput + [DOT] + sig;
  }

  method StringToInt64(s: Bytes) returns (n: nat)
    requires AllDigits(s)
    ensures n == ParseInt64(s)
  {
    if s == [] { return 0; }
    var v := Value(s);
    n := if v >= INT64_LIMIT then 0 else v;
  }

  method ReadClaim(token: Bytes, key: Bytes) returns (n: nat)
    ensures n == Claim(token, key)
  {
    var dot1 := FindByte(token, DOT, 0);
    if dot1 == |token| { return 0; }
    var dot2 := FindByte(token, DOT, dot1 + 1);
    if dot2 == |token| { return 0; }
    var payload := UrlDecode(token[dot1 + 1..dot2]);
    n := ReadPayload(payload, key);
  }

  method ReadPayload(payload: Bytes, key: Bytes) returns (n: nat)
    ensures n == ClaimIn(payload, key)
  {
    var pos := FindText(payload, key, 0);
    if pos == |payload| { return 0; }
    pos := FindByte(payload, COLON, pos);
    if pos == |payload| { return 0; }
    pos := pos + 1;
    ghost var first := pos;
    while pos < |payload| && IsBlank(payload[pos])
      invariant first <= pos <= |payload|
      invariant SkipBlanks(payload, pos) == SkipBlanks(payload, first)
      decreases |payload| - pos
    {
      pos := pos + 1;
    }
    var end := FirstNonDigit(payload, pos);
    n := StringToInt64(payload[pos..end]);
  }

  /** Three parts, and the third matches the keyed hash of the first two. */
  method CheckSignature(token: Bytes, secret: Bytes, hmac: Hmac) returns (ok: bool)
    ensures ok == SignatureValid(token, secret, hmac)
  {
    var dot1 := FindByte(token, DOT, 0);
    if dot1 == |token| { return false; }
    var dot2 := FindByte(token, DOT, dot1 + 1);
    if dot2 == |token| { return false; }
    if FindByte(token, DOT, dot2 + 1) != |token| { return false; }
    var sigInput := token[..dot2];
    var sigEncoded := token[dot2 + 1..];
    var expectedSig := UrlEncode(hmac(secret, sigInput));
    ok := expectedSig == sigEncoded;
  }

  method CheckClaims(token: Bytes, now: int, startTime: int) returns (ok: bool)
    ensures ok <==> GetExp(token) != 0 && now < GetExp(token) && !IssuedBeforeStart(token, startTime)
  {
    var exp := ReadClaim(token, EXP_KEY);
    if exp == 0 || now >= exp { return false; }
    if startTime > 0 {
      var iat := ReadClaim(token, IAT_KEY);
      if iat > 0 && iat < startTime { return false; }
    }
    ok := true;
  }

  method Verify(token: Bytes, secret: Bytes, hmac: Hmac, now: int, startTime: int, table: Blacklist.Table)
    returns (ok: bool)
    requires table.Valid()
    ensures ok == Verified(token, secret, hmac, now, startTime, table.entries)
  {
    var signed := CheckSignature(token, secret, hmac);
    if !signed { return false; }
    var claimed := CheckClaims(token, now, startTime);
    if !claimed { return false; }
    var revoked := table.IsRevoked(token);
    ok := !revoked;
  }

  /** Revocation under the token's own expiry. */
  method Revoke(token: Bytes, now: int, table: Blacklist.Table)
    requires table.Valid()
    modifies table
    ensures table.Valid() && table.maxEntries == old(table.maxEntries)
    ensures table.entries
         == Blacklist.Revoked(old(table.entries), table.maxEntries, token, GetExp(token), now)
    ensures table.hasCallback == old(table.hasCallback)
    ensures table.persisted == old(table.persisted)
              + (if GetExp(token) != 0 && table.hasCallback then [Blacklist.Entry(token, GetExp(token))] else [])
  {
    var exp := ReadClaim(token, EXP_KEY);
    table.Revoke(token, exp, now);
  }
}

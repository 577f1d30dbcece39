/** Base64url without padding (section 5 of RFC 4648), as the token code derives it from base64:
    encode, replace two symbols in place, drop trailing padding; and back. */
module Base64Url {
  import opened Bytes
  import opened Base64

  // ---- Specification ------------------------------------------------------------------------

  function ToUrl(c: Byte): Byte { if c == 43 then 45 else if c == 47 then 95 else c }

  function FromUrl(c: Byte): Byte { if c == 45 then 43 else if c == 95 then 47 else c }

  function ToUrlAll(s: Bytes): (r: Bytes)
    ensures |r| == |s| && forall i :: 0 <= i < |s| ==> r[i] == ToUrl(s[i])
  {
    seq(|s|, i requires 0 <= i < |s| => ToUrl(s[i]))
  }

  function FromUrlAll(s: Bytes): (r: Bytes)
    ensures |r| == |s| && forall i :: 0 <= i < |s| ==> r[i] == FromUrl(s[i])
  {
    seq(|s|, i requires 0 <= i < |s| => FromUrl(s[i]))
  }

  function Strip(s: Bytes): Bytes
  {
    if s != [] && s[|s| - 1] == PAD then Strip(s[..|s| - 1]) else s
  }

  function Pads(k: nat): (r: Bytes)
    ensures |r| == k && forall i :: 0 <= i < k ==> r[i] == PAD
  {
    seq(k, _ => PAD)
  }

  function PadCount(n: nat): nat { (4 - n % 4) % 4 }

  function UrlEncoded(data: Bytes): Bytes { Strip(ToUrlAll(Encoded(data))) }

  function UrlDecoded(s: Bytes): Bytes { Decoded(FromUrlAll(s) + Pads(PadCount(|s|))) }

  /** Table 2 of RFC 4648 differs from Table 1 in two symbols. */
  lemma UrlTableIsTheAlphabet(v: nat)
    requires v < 64
    ensures |ALPHABET| == 64
    ensures ToUrl(Table(v)) == if v == 62 then 45 else if v == 63 then 95 else ALPHABET[v]
    ensures FromUrl(ToUrl(Table(v))) == Table(v)
  {
    TablesAreTheAlphabet(v, PAD);
  }

  // ---- Shape of the output ------------------------------------------------------------------

  predicate Symbol(c: Byte)
  {
    65 <= c <= 90 || 97 <= c <= 122 || 48 <= c <= 57 || c == 43 || c == 47
  }

  predicate UrlSafe(c: Byte)
  {
    65 <= c <= 90 || 97 <= c <= 122 || 48 <= c <= 57 || c == 45 || c == 95
  }

  ghost predicate AllSymbols(s: Bytes) { forall i :: 0 <= i < |s| ==> Symbol(s[i]) }

  ghost predicate AllUrlSafe(s: Bytes) { forall i :: 0 <= i < |s| ==> UrlSafe(s[i]) }

  /** The symbols of the encoding, without padding. */
  function Symbols(data: Bytes): Bytes
  {
    if data == [] then []
    else EncodeGroup(Group(data))[..|Group(data)| + 1] + Symbols(data[|Group(data)|..])
  }

  /** ceil(4n / 3) */
  function SymbolCount(n: nat): nat { (4 * n + 2) / 3 }

  lemma GroupShape(g: Bytes)
    requires 1 <= |g| <= 3
    ensures AllSymbols(EncodeGroup(g)[..|g| + 1])
    ensures EncodeGroup(g) == EncodeGroup(g)[..|g| + 1] + Pads(3 - |g|)
  {
  }

  lemma SymbolCountStep(n: nat)
    requires n > 0
    ensures n < 3 ==> SymbolCount(n) == n + 1 && PadCount(n + 1) == 3 - n
    ensures n >= 3 ==> SymbolCount(n) == 4 + SymbolCount(n - 3)
    ensures n >= 3 ==> PadCount(SymbolCount(n)) == PadCount(SymbolCount(n - 3))
  {
  }

  lemma SymbolsStep(data: Bytes, g: Bytes, rest: Bytes)
    requires data != [] && g == Group(data) && rest == data[|g|..]
    ensures Symbols(data) == EncodeGroup(g)[..|g| + 1] + Symbols(rest)
    ensures Encoded(data) == EncodeGroup(g) + Encoded(rest)
  {
  }

  lemma {:induction false} SymbolsShape(data: Bytes)
    ensures |Symbols(data)| == SymbolCount(|data|) && AllSymbols(Symbols(data))
    decreases |data|
  {
    if data != [] {
      var g, rest := Group(data), data[|Group(data)|..];
      SymbolsStep(data, g, rest);
      GroupShape(g);
      SymbolCountStep(|data|);
      SymbolsShape(rest);
    }
  }

  /** The encoding is its symbols and the padding. */
  ghost predicate PaddedSymbols(encoded: Bytes, symbols: Bytes)
  {
    encoded == symbols + Pads(PadCount(|symbols|))
  }

  lemma {:induction false} EncodedPads(data: Bytes)
    ensures PaddedSymbols(Encoded(data), Symbols(data))
    decreases |data|
  {
    if data != [] {
      var g, rest := Group(data), data[|Group(data)|..];
      SymbolsStep(data, g, rest);
      GroupShape(g);
      SymbolCountStep(|data|);
      SymbolsShape(data);
      SymbolsShape(rest);
      if |data| < 3 {
        assert rest == [] && Symbols(rest) == [] && Encoded(rest) == [];
      } else {
        EncodedPads(rest);
      }
    } else {
      assert Pads(0) == [];
    }
  }

  lemma {:induction false} StripPads(s: Bytes, k: nat)
    requires s == [] || s[|s| - 1] != PAD
    ensures Strip(s + Pads(k)) == s
    decreases k
  {
    if k > 0 {
      assert (s + Pads(k))[..|s| + k - 1] == s + Pads(k - 1);
      StripPads(s, k - 1);
    } else {
      assert s + Pads(0) == s;
    }
  }

  lemma UrlEncodedIs(data: Bytes)
    ensures UrlEncoded(data) == ToUrlAll(Symbols(data))
  {
    SymbolsShape(data);
    EncodedPads(data);
    var k := PadCount(|Symbols(data)|);
    assert ToUrlAll(Encoded(data)) == ToUrlAll(Symbols(data)) + Pads(k);
    StripPads(ToUrlAll(Symbols(data)), k);
  }

  /** The output has length ceil(4n/3) and only URL-safe symbols: in particular no padding and no
      dot. */
  lemma UrlEncodedShape(data: Bytes)
    ensures |UrlEncoded(data)| == SymbolCount(|data|) && AllUrlSafe(UrlEncoded(data))
  {
    SymbolsShape(data);
    UrlEncodedIs(data);
  }

  /** Decoding inverts encoding on every byte string of every length. */
  lemma UrlRoundTrip(data: Bytes)
    ensures UrlDecoded(UrlEncoded(data)) == data
  {
    EncodedPads(data);
    SymbolsShape(data);
    UrlEncodedIs(data);
    var s := Symbols(data);
    assert FromUrlAll(ToUrlAll(s)) == s;
    RoundTrip(data);
  }

  lemma UrlEncodeInjective(x: Bytes, y: Bytes)
    requires UrlEncoded(x) == UrlEncoded(y)
    ensures x == y
  {
    UrlRoundTrip(x);
    UrlRoundTrip(y);
  }

  // ---- The loops ----------------------------------------------------------------------------

  method UrlEncode(data: Bytes) returns (result: Bytes)
    ensures result == UrlEncoded(data)
  {
    result := Encode(data);
    ghost var plain := result;
    for i := 0 to |result|
      invariant |result| == |plain|
      invariant forall j :: 0 <= j < |plain| ==> result[j] == if j < i then ToUrl(plain[j]) else plain[j]
    {
      if result[i] == 43 {
        result := result[i := 45];
      } else if result[i] == 47 {
        result := result[i := 95];
      }
    }
    assert result == ToUrlAll(plain);
    while result != [] && result[|result| - 1] == PAD
      invariant Strip(result) == UrlEncoded(data)
      decreases |result|
    {
      result := result[..|result| - 1];
    }
  }

  method UrlDecode(input: Bytes) returns (result: Bytes)
    ensures result == UrlDecoded(input)
  {
    var data := input;
    for i := 0 to |data|
      invariant |data| == |input|
      invariant forall j :: 0 <= j < |input| ==> data[j] == if j < i then FromUrl(input[j]) else input[j]
    {
      if data[i] == 45 {
        data := data[i := 43];
      } else if data[i] == 95 {
        data := data[i := 47];
      }
    }
    ghost var base := data;
    assert base == FromUrlAll(input);
    assert base + Pads(0) == base;
    while |data| % 4 != 0
      invariant |base| <= |data| <= |base| + PadCount(|base|)
      invariant data == base + Pads(|data| - |base|)
      decreases |base| + PadCount(|base|) - |data|
    {
      data := data + [PAD];
    }
    result := Decode(data);
  }
}

/** Base64 with padding (section 4 of RFC 4648) and the unpadded URL-safe form (section 5), as loops
    over bytes and as the arithmetic they compute. */
module Base64 {
  import opened Bits
  import opened Bytes

  // ---- Alphabet -----------------------------------------------------------------------------

  const PAD: Byte := 61

  function Table(v: nat): Byte
    requires v < 64
  {
    if v < 26 then 65 + v
    else if v < 52 then 97 + (v - 26)
    else if v < 62 then 48 + (v - 52)
    else if v == 62 then 43 else 47
  }

  /** The decoder's table: 255 for a byte outside the alphabet, and 0 for the padding byte. */
  function DecodeTable(c: Byte): (v: nat)
    ensures v < 64 || v == 255
  {
    if 65 <= c <= 90 then c - 65
    else if 97 <= c <= 122 then c - 97 + 26
    else if 48 <= c <= 57 then c - 48 + 52
    else if c == 43 then 62
    else if c == 47 then 63
    else if c == PAD then 0
    else 255
  }

  lemma TableInverse(v: nat)
    requires v < 64
    ensures DecodeTable(Table(v)) == v && Table(v) != PAD
  {
  }

  /** Table 1 of RFC 4648. */
  const UPPER: Bytes := Text("ABCDEFGHIJKLMNOPQRSTUVWXYZ")
  const LOWER: Bytes := Text("abcdefghijklmnopqrstuvwxyz")
  const OTHERS: Bytes := Text("0123456789+/")
  const ALPHABET: Bytes := UPPER + LOWER + OTHERS

  predicate InAlphabet(c: Byte) { exists v :: 0 <= v < 64 && Table(v) == c }

  lemma UpperSymbols(v: nat)
    requires v < 26
    ensures |UPPER| == 26 && UPPER[v] == Table(v)
  {
    assert v == 0 || v == 1 || v == 2 || v == 3 || v == 4 || v == 5 || v == 6 || v == 7 || v == 8
        || v == 9 || v == 10 || v == 11 || v == 12 || v == 13 || v == 14 || v == 15 || v == 16
        || v == 17 || v == 18 || v == 19 || v == 20 || v == 21 || v == 22 || v == 23 || v == 24 || v == 25;
  }

  lemma LowerSymbols(v: nat)
    requires v < 26
    ensures |LOWER| == 26 && LOWER[v] == Table(v + 26)
  {
    assert v == 0 || v == 1 || v == 2 || v == 3 || v == 4 || v == 5 || v == 6 || v == 7 || v == 8
        || v == 9 || v == 10 || v == 11 || v == 12 || v == 13 || v == 14 || v == 15 || v == 16
        || v == 17 || v == 18 || v == 19 || v == 20 || v == 21 || v == 22 || v == 23 || v == 24 || v == 25;
  }

  lemma OtherSymbols(v: nat)
    requires v < 12
    ensures |OTHERS| == 12 && OTHERS[v] == Table(v + 52)
  {
    assert v == 0 || v == 1 || v == 2 || v == 3 || v == 4 || v == 5 || v == 6 || v == 7 || v == 8
        || v == 9 || v == 10 || v == 11;
  }

  lemma AlphabetSymbol(v: nat)
    requires v < 64
    ensures |ALPHABET| == 64 && ALPHABET[v] == Table(v)
  {
    UpperSymbols(if v < 26 then v else 0);
    LowerSymbols(if 26 <= v < 52 then v - 26 else 0);
    OtherSymbols(if 52 <= v then v - 52 else 0);
  }

  /** Symbol v is character v of the alphabet, the decoder's table is its inverse, and every other byte
      but the padding is foreign. */
  lemma TablesAreTheAlphabet(v: nat, c: Byte)
    requires v < 64
    ensures |ALPHABET| == 64 && Table(v) == ALPHABET[v]
    ensures DecodeTable(c) == v && c != PAD <==> c == ALPHABET[v]
    ensures DecodeTable(c) == 255 <==> !InAlphabet(c) && c != PAD
  {
    AlphabetSymbol(v);
    if DecodeTable(c) != 255 && c != PAD { assert Table(DecodeTable(c)) == c; }
  }

  // ---- What encoding and decoding mean ------------------------------------------------------

  /** The byte at `i`, or zero past the end. */
  function At(g: Bytes, i: nat): Byte { if i < |g| then g[i] else 0 }

  /** One to three bytes as a 24-bit number, missing bytes zero. */
  function Number(g: Bytes): (n: nat)
    requires 1 <= |g| <= 3
    ensures n < 16777216
  {
    var b0: int, b1: int, b2: int := g[0], At(g, 1), At(g, 2);
    b0 * 65536 + b1 * 256 + b2
  }

  /** The k-th of the four base-64 digits of a 24-bit number. */
  function Digit(n: nat, k: nat): (d: nat)
    requires k < 4
    ensures d < 64
  {
    if k == 0 then (n / 262144) % 64
    else if k == 1 then (n / 4096) % 64
    else if k == 2 then (n / 64) % 64
    else n % 64
  }

  /** A group of m bytes becomes m + 1 symbols and 3 - m padding bytes. */
  function EncodeGroup(g: Bytes): (r: Bytes)
    requires 1 <= |g| <= 3
    ensures |r| == 4
  {
    var n := Number(g);
    [Table(Digit(n, 0)), Table(Digit(n, 1)),
     if |g| > 1 then Table(Digit(n, 2)) else PAD,
     if |g| > 2 then Table(Digit(n, 3)) else PAD]
  }

  function Group(data: Bytes): (g: Bytes)
    requires data != []
    ensures 1 <= |g| <= 3
  {
    if |data| < 3 then data else data[..3]
  }

  function Encoded(data: Bytes): (r: Bytes)
  {
    if data == [] then []
    else EncodeGroup(Group(data)) + Encoded(data[|Group(data)|..])
  }

  /** What one quadruple of symbols decodes to, or nothing if either of its first two is invalid. */
  function DecodeQuad(s: Bytes): (r: Bytes)
    requires |s| == 4
  {
    QuadOf(s[2], s[3], DecodeTable(s[0]), DecodeTable(s[1]), DecodeTable(s[2]), DecodeTable(s[3]))
  }

  /** The same from the last two symbols and the table's values for all four. */
  function QuadOf(third: Byte, fourth: Byte, a: nat, b: nat, c: nat, d: nat): (r: Bytes)
    requires (a < 64 || a == 255) && (b < 64 || b == 255) && (c < 64 || c == 255) && (d < 64 || d == 255)
  {
    if a == 255 || b == 255 then []
    else
      [a * 4 + b / 16]
      + (if third == PAD || c == 255 then []
         else [(b % 16) * 16 + c / 4]
              + (if fourth == PAD || d == 255 then [] else [(c % 4) * 64 + d]))
  }

  function Decoded(s: Bytes): Bytes
  {
    if |s| < 4 || DecodeQuad(s[..4]) == [] then [] else DecodeQuad(s[..4]) + Decoded(s[4..])
  }

  // ---- Round trip ---------------------------------------------------------------------------

  lemma Digit0(x: nat, y: nat, z: nat)
    requires x < 256 && y < 256 && z < 256
    ensures Digit(x * 65536 + y * 256 + z, 0) == x / 4
  {
    DivModUnique(x * 65536 + y * 256 + z, 262144, x / 4, (x % 4) * 65536 + y * 256 + z);
  }

  lemma Digit1(x: nat, y: nat, z: nat)
    requires x < 256 && y < 256 && z < 256
    ensures Digit(x * 65536 + y * 256 + z, 1) == (x % 4) * 16 + y / 16
  {
    DivModUnique(x * 65536 + y * 256 + z, 4096, x * 16 + y / 16, (y % 16) * 256 + z);
    DivModUnique(x * 16 + y / 16, 64, x / 4, (x % 4) * 16 + y / 16);
  }

  lemma Digit2(x: nat, y: nat, z: nat)
    requires x < 256 && y < 256 && z < 256
    ensures Digit(x * 65536 + y * 256 + z, 2) == (y % 16) * 4 + z / 64
  {
    DivModUnique(x * 65536 + y * 256 + z, 64, x * 1024 + y * 4 + z / 64, z % 64);
    DivModUnique(x * 1024 + y * 4 + z / 64, 64, x * 16 + y / 16, (y % 16) * 4 + z / 64);
  }

  lemma Digit3(x: nat, y: nat, z: nat)
    requires x < 256 && y < 256 && z < 256
    ensures Digit(x * 65536 + y * 256 + z, 3) == z % 64
  {
    DivModUnique(x * 65536 + y * 256 + z, 64, x * 1024 + y * 4 + z / 64, z % 64);
  }

  lemma DigitsOf(g: Bytes)
    requires 1 <= |g| <= 3
    ensures var n, x, y, z := Number(g), g[0], At(g, 1), At(g, 2);
      && Digit(n, 0) == x / 4 && Digit(n, 1) == (x % 4) * 16 + y / 16
      && Digit(n, 2) == (y % 16) * 4 + z / 64 && Digit(n, 3) == z % 64
  {
    Digit0(g[0], At(g, 1), At(g, 2));
    Digit1(g[0], At(g, 1), At(g, 2));
    Digit2(g[0], At(g, 1), At(g, 2));
    Digit3(g[0], At(g, 1), At(g, 2));
  }

  /** Recombining the digits of three bytes. */
  lemma Recombine(x: nat, y: nat, z: nat)
    requires x < 256 && y < 256 && z < 256
    ensures (x / 4) * 4 + ((x % 4) * 16 + y / 16) / 16 == x
    ensures (((x % 4) * 16 + y / 16) % 16) * 16 + ((y % 16) * 4 + z / 64) / 4 == y
    ensures (((y % 16) * 4 + z / 64) % 4) * 64 + z % 64 == z
  {
    DivModUnique((x % 4) * 16 + y / 16, 16, x % 4, y / 16);
    DivModUnique((y % 16) * 4 + z / 64, 4, y % 16, z / 64);
  }

  lemma GroupRoundTrip(g: Bytes)
    requires 1 <= |g| <= 3
    ensures DecodeQuad(EncodeGroup(g)) == g
  {
    var n := Number(g);
    var e := EncodeGroup(g);
    TableInverse(Digit(n, 0));
    TableInverse(Digit(n, 1));
    TableInverse(Digit(n, 2));
    TableInverse(Digit(n, 3));
    var a, b, c, d := Digit(n, 0), Digit(n, 1), Digit(n, 2), Digit(n, 3);
    QuadOfDigits(g, a, b, c, d);
  }

  lemma QuadOfDigits(g: Bytes, a: nat, b: nat, c: nat, d: nat)
    requires 1 <= |g| <= 3
    requires a == Digit(Number(g), 0) && b == Digit(Number(g), 1)
    requires c == Digit(Number(g), 2) && d == Digit(Number(g), 3)
    ensures a * 4 + b / 16 == g[0]
    ensures |g| > 1 ==> (b % 16) * 16 + c / 4 == g[1]
    ensures |g| > 2 ==> (c % 4) * 64 + d == g[2]
  {
    DigitsOf(g);
    Recombine(g[0], At(g, 1), At(g, 2));
  }

  /** Decoding inverts encoding on every byte string. */
  lemma {:induction false} RoundTrip(data: Bytes)
    ensures Decoded(Encoded(data)) == data
    decreases |data|
  {
    if data != [] {
      var g, rest := Group(data), data[|Group(data)|..];
      GroupRoundTrip(g);
      RoundTrip(rest);
      var e := Encoded(data);
      assert e[..4] == EncodeGroup(g) && e[4..] == Encoded(rest);
      assert data == g + rest;
    }
  }

  /** The symbol's digit, 0 for one that does not count. */
  function DigitOf(c: Byte): (d: nat)
    ensures d < 64
  {
    if InAlphabet(c) then DecodeTable(c) else 0
  }

  /** The 24-bit number of four symbols, of which those behind the first that is not in the alphabet do
      not count. */
  function QuadNumber(s: Bytes): nat
    requires |s| == 4
  {
    DigitOf(s[0]) * 262144 + DigitOf(s[1]) * 4096
    + (if InAlphabet(s[2]) then
         DigitOf(s[2]) * 64 + (if InAlphabet(s[3]) then DigitOf(s[3]) else 0)
       else 0)
  }

  /** What four symbols decode to, valid or not: nothing if one of the first two is foreign; otherwise the
      leading bytes of their number, one if the third symbol does not count, two if only the fourth
      does not. */
  lemma QuadMeans(s: Bytes)
    requires |s| == 4
    ensures var r, n := DecodeQuad(s), QuadNumber(s);
      && (r == [] <==> (!InAlphabet(s[0]) && s[0] != PAD) || (!InAlphabet(s[1]) && s[1] != PAD))
      && (r != [] ==>
            && |r| == (if !InAlphabet(s[2]) then 1 else if !InAlphabet(s[3]) then 2 else 3)
            && r[0] == n / 65536
            && (|r| > 1 ==> r[1] == (n / 256) % 256)
            && (|r| > 2 ==> r[2] == n % 256))
  {
    TablesAreTheAlphabet(0, s[0]);
    TablesAreTheAlphabet(0, s[1]);
    TablesAreTheAlphabet(0, s[2]);
    TablesAreTheAlphabet(0, s[3]);
    PadIsNoSymbol();
    var c := if InAlphabet(s[2]) then DigitOf(s[2]) else 0;
    var d := if InAlphabet(s[2]) && InAlphabet(s[3]) then DigitOf(s[3]) else 0;
    QuadBytes(DigitOf(s[0]), DigitOf(s[1]), c, d);
  }

  lemma PadIsNoSymbol()
    ensures !InAlphabet(PAD) && DecodeTable(PAD) == 0
  {
  }

  lemma QuadBytes(a: nat, b: nat, c: nat, d: nat)
    requires a < 64 && b < 64 && c < 64 && d < 64
    ensures var n := a * 262144 + b * 4096 + c * 64 + d;
      n / 65536 == a * 4 + b / 16 && (n / 256) % 256 == (b % 16) * 16 + c / 4 && n % 256 == (c % 4) * 64 + d
  {
    var n := a * 262144 + b * 4096 + c * 64 + d;
    var x, y, z := a * 4 + b / 16, (b % 16) * 16 + c / 4, (c % 4) * 64 + d;
    assert b == (b / 16) * 16 + b % 16 && c == (c / 4) * 4 + c % 4;
    assert n == x * 65536 + y * 256 + z;
    DivModUnique(n, 65536, x, y * 256 + z);
    DivModUnique(n, 256, x * 256 + y, z);
    DivModUnique(x * 256 + y, 256, x, y);
  }

  /** Decoding stops at the first quadruple that yields nothing, and ignores up to three bytes at the end:
      behind an encoding without padding neither changes what is decoded. */
  lemma {:induction false} DecodedStops(data: Bytes, tail: Bytes)
    requires |data| % 3 == 0 && (|tail| < 4 || DecodeQuad(tail[..4]) == [])
    ensures Decoded(Encoded(data) + tail) == data
    decreases |data|
  {
    if data == [] {
      assert Encoded(data) + tail == tail;
    } else {
      var g, rest := Group(data), data[|Group(data)|..];
      DecodedStops(rest, tail);
      GroupDecodes(data, g, rest, tail);
    }
  }

  lemma GroupDecodes(data: Bytes, g: Bytes, rest: Bytes, tail: Bytes)
    requires data != [] && g == Group(data) && rest == data[|g|..]
    ensures Decoded(Encoded(data) + tail) == g + Decoded(Encoded(rest) + tail)
    ensures data == g + rest
  {
    GroupRoundTrip(g);
    var e := Encoded(data) + tail;
    assert e[..4] == EncodeGroup(g) && e[4..] == Encoded(rest) + tail;
  }

  lemma EncodeInjective(x: Bytes, y: Bytes)
    requires Encoded(x) == Encoded(y)
    ensures x == y
  {
    RoundTrip(x);
    RoundTrip(y);
  }

  // ---- The loops ----------------------------------------------------------------------------

  lemma BitConstants()
    ensures Pow2(2) == 4 && Pow2(4) == 16 && Pow2(6) == 64 && Pow2(8) == 256
    ensures Pow2(12) == 4096 && Pow2(16) == 65536 && Pow2(18) == 262144
  {
    assert Pow2(8) == 256;
    Pow2Add(4, 8);
    Pow2Add(8, 8);
    Pow2Add(2, 16);
  }

  /** `n = a << 16 | b << 8 | c` is the 24-bit number. */
  lemma PackBytes(a: Byte, b: Byte, c: Byte)
    ensures Or(Or(Shl(a, 16), Shl(b, 8)), c) == a * 65536 + b * 256 + c
    ensures Or(Shl(a, 16), Shl(b, 8)) == a * 65536 + b * 256
    ensures Shl(a, 16) == a * 65536
  {
    BitConstants();
    OrDisjoint(a, b * 256, 16);
    OrDisjoint(a * 256 + b, c, 8);
    assert Shl(a * 256 + b, 8) == a * 65536 + b * 256;
  }

  /** `(n >> 6j) & 0x3F` is a base-64 digit. */
  lemma UnpackDigits(n: nat)
    ensures And(Shr(n, 18), 0x3F) == Digit(n, 0) && And(Shr(n, 12), 0x3F) == Digit(n, 1)
    ensures And(Shr(n, 6), 0x3F) == Digit(n, 2) && And(n, 0x3F) == Digit(n, 3)
  {
    BitConstants();
    AndMask(Shr(n, 18), 6);
    AndMask(Shr(n, 12), 6);
    AndMask(Shr(n, 6), 6);
    AndMask(n, 6);
  }

  lemma EncodedStep(data: Bytes, i: nat)
    requires i < |data|
    ensures var g := Group(data[i..]);
      && |g| == (if i + 3 <= |data| then 3 else |data| - i)
      && g == data[i..i + |g|]
      && Encoded(data[i..]) == EncodeGroup(g) + Encoded(data[i + |g|..])
  {
    var g := Group(data[i..]);
    assert data[i..][|g|..] == data[i + |g|..];
  }

  /** One round of the loop moves one group from the rest of the input to the result. */
  lemma EncodeRound(data: Bytes, i: nat, j: nat, result: Bytes, quad: Bytes)
    requires i < |data| && j == (if i + 3 <= |data| then i + 3 else |data|)
    requires quad == EncodeGroup(Group(data[i..]))
    ensures result + quad + Encoded(data[j..]) == result + Encoded(data[i..])
  {
    EncodedStep(data, i);
    Assoc(result, quad, Encoded(data[j..]));
  }

  lemma Assoc(a: Bytes, b: Bytes, c: Bytes)
    ensures a + b + c == a + (b + c)
  {
  }

  /** One round of the loop: the bits of a group, symbol by symbol. */
  method EncodeBlock(data: Bytes, i: nat) returns (quad: Bytes)
    requires i < |data|
    ensures quad == EncodeGroup(Group(data[i..]))
  {
    var len := |data|;
    ghost var g := Group(data[i..]);
    var n := Shl(data[i], 16);
    if i + 1 < len { n := Or(n, Shl(data[i + 1], 8)); }
    if i + 2 < len { n := Or(n, data[i + 2]); }
    PackBytes(data[i], At(g, 1), At(g, 2));
    assert n == Number(g);
    UnpackDigits(n);
    quad := [Table(And(Shr(n, 18), 0x3F)), Table(And(Shr(n, 12), 0x3F)),
             if i + 1 < len then Table(And(Shr(n, 6), 0x3F)) else PAD,
             if i + 2 < len then Table(And(n, 0x3F)) else PAD];
  }

  method Encode(data: Bytes) returns (result: Bytes)
    ensures result == Encoded(data)
  {
    result := [];
    var i, len := 0, |data|;
    assert data[0..] == data;
    while i < len
      invariant 0 <= i <= len
      invariant result + Encoded(data[i..]) == Encoded(data)
      decreases len - i
    {
      var quad := EncodeBlock(data, i);
      var next := if i + 3 <= len then i + 3 else len;
      EncodeRound(data, i, next, result, quad);
      result := result + quad;
      i := next;
    }
    assert data[len..] == [];
  }

  lemma UnpackFirst(a: nat, b: nat)
    requires a < 64 && b < 64
    ensures Or(Shl(a, 2), Shr(b, 4)) == a * 4 + b / 16 < 256
  {
    BitConstants();
    OrDisjoint(a, b / 16, 2);
  }

  lemma UnpackSecond(b: nat, c: nat)
    requires b < 64 && c < 64
    ensures Or(Shl(And(b, 0x0F), 4), Shr(c, 2)) == (b % 16) * 16 + c / 4 < 256
  {
    BitConstants();
    AndMask(b, 4);
    OrDisjoint(b % 16, c / 4, 4);
  }

  lemma UnpackThird(c: nat, d: nat)
    requires c < 64 && d < 64
    ensures Or(Shl(And(c, 0x03), 6), d) == (c % 4) * 64 + d < 256
  {
    BitConstants();
    AndMask(c, 2);
    OrDisjoint(c % 4, d, 6);
  }

  /** One round of the loop: what a quadruple with valid first symbols yields. */
  method DecodeBlock(third: Byte, fourth: Byte, a: nat, b: nat, c: nat, d: nat) returns (out: Bytes)
    requires a < 64 && b < 64 && (c < 64 || c == 255) && (d < 64 || d == 255)
    ensures out == QuadOf(third, fourth, a, b, c, d)
  {
    UnpackFirst(a, b);
    var first := Or(Shl(a, 2), Shr(b, 4));
    if third == PAD || c == 255 { return [first]; }
    UnpackSecond(b, c);
    var second := Or(Shl(And(b, 0x0F), 4), Shr(c, 2));
    if fourth == PAD || d == 255 { return [first, second]; }
    UnpackThird(c, d);
    var third := Or(Shl(And(c, 0x03), 6), d);
    out := [first, second, third];
  }

  method Decode(data: Bytes) returns (result: Bytes)
    ensures result == Decoded(data)
  {
    result := [];
    var i := 0;
    assert data[0..] == data;
    while i + 3 < |data|
      invariant 0 <= i <= |data|
      invariant result + Decoded(data[i..]) == Decoded(data)
      decreases |data| - i
    {
      var quad := data[i..i + 4];
      assert data[i..][..4] == quad && data[i..][4..] == data[i + 4..];
      var a, b := DecodeTable(quad[0]), DecodeTable(quad[1]);
      var c, d := DecodeTable(quad[2]), DecodeTable(quad[3]);
      if a == 255 || b == 255 {
        break;
      }
      var block := DecodeBlock(quad[2], quad[3], a, b, c, d);
      result := result + block;
      i := i + 4;
    }
  }
}

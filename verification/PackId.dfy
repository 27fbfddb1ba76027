/** UTF-8, the byte view of a string that base64 and the byte limits work on. */
module Utf8 {
  import opened Wrappers

  type byte = b: int | 0 <= b < 256

  function EncodeRune(c: char): (r: seq<byte>)
    ensures 1 <= |r| <= 4
  {
    var n := c as int;
    if n < 0x80 then [n]
    else if n < 0x800 then [0xC0 + n / 64, 0x80 + n % 64]
    else if n < 0x1_0000 then [0xE0 + n / 4096, 0x80 + n / 64 % 64, 0x80 + n % 64]
    else [0xF0 + n / 262144, 0x80 + n / 4096 % 64, 0x80 + n / 64 % 64, 0x80 + n % 64]
  }

  function Encode(s: string): (r: seq<byte>)
    ensures |s| <= |r| <= 4 * |s|
  {
    if s == [] then [] else EncodeRune(s[0]) + Encode(s[1..])
  }

  predicate Cont(b: byte) { 0x80 <= b < 0xC0 }

  /** The number that continuation bytes add to the bits of a first byte. */
  function Continued(bits: int, rest: seq<byte>): int {
    if rest == [] then bits else 64 * Continued(bits, rest[..|rest| - 1]) + (rest[|rest| - 1] as int - 128)
  }

  /** Table 3-6 of the Unicode standard: the marks of each byte, and the scalar value as the rest read in order. */
  lemma RuneIs(c: char)
    ensures var n, r := c as int, EncodeRune(c);
      && |r| == (if n < 128 then 1 else if n < 2048 then 2 else if n < 65536 then 3 else 4)
      && (forall b :: b in r[1..] ==> Cont(b))
      && var mark := if |r| == 1 then 0 else if |r| == 2 then 192 else if |r| == 3 then 224 else 240;
        mark <= r[0] as int < 248 && Continued(r[0] as int - mark, r[1..]) == n
  {
    hide Continued;
    var n, r := c as int, EncodeRune(c);
    if n < 128 {
      assert r[1..] == [];
      NoneContinued(n);
    } else if n < 2048 {
      assert r[1..] == [128 + n % 64];
      OneContinued(n);
    } else if n < 65536 {
      assert r[1..] == [128 + n / 64 % 64, 128 + n % 64];
      TwoContinued(n);
    } else {
      assert r[1..] == [128 + n / 4096 % 64, 128 + n / 64 % 64, 128 + n % 64];
      ThreeContinued(n);
    }
  }

  lemma NoneContinued(n: nat)
    ensures Continued(n, []) == n
  {
  }

  lemma OneContinued(n: nat)
    ensures Continued(n / 64, [128 + n % 64]) == n
  {
    assert [128 + n % 64][..0] == [];
  }

  lemma TwoContinued(n: nat)
    ensures Continued(n / 4096, [128 + n / 64 % 64, 128 + n % 64]) == n
  {
    var rest: seq<byte> := [128 + n / 64 % 64, 128 + n % 64];
    assert rest[..1] == [128 + n / 64 % 64] && n / 64 / 64 == n / 4096;
    OneContinued(n / 64);
  }

  lemma ThreeContinued(n: nat)
    ensures Continued(n / 262144, [128 + n / 4096 % 64, 128 + n / 64 % 64, 128 + n % 64]) == n
  {
    var rest: seq<byte> := [128 + n / 4096 % 64, 128 + n / 64 % 64, 128 + n % 64];
    assert rest[..2] == [128 + n / 4096 % 64, 128 + n / 64 % 64] && n / 64 / 64 == n / 4096 && n / 64 / 4096 == n / 262144;
    TwoContinued(n / 64);
  }

  /** The first rune and its width; None on malformed, over-long or surrogate input. */
  function DecodeRune(b: seq<byte>): (r: Option<(char, nat)>)
    requires b != []
    ensures r.Some? ==> 1 <= r.value.1 <= |b|
  {
    if b[0] < 0x80 then Some((b[0] as char, 1))
    else if 0xC0 <= b[0] < 0xE0 && |b| >= 2 && Cont(b[1]) then
      var n: int := (b[0] as int - 0xC0) * 64 + (b[1] as int - 0x80);
      if n < 0x80 then None else Some((n as char, 2))
    else if 0xE0 <= b[0] < 0xF0 && |b| >= 3 && Cont(b[1]) && Cont(b[2]) then
      var n: int := (b[0] as int - 0xE0) * 4096 + (b[1] as int - 0x80) * 64 + (b[2] as int - 0x80);
      if n < 0x800 || 0xD800 <= n < 0xE000 then None else Some((n as char, 3))
    else if 0xF0 <= b[0] < 0xF8 && |b| >= 4 && Cont(b[1]) && Cont(b[2]) && Cont(b[3]) then
      var n: int := (b[0] as int - 0xF0) * 262144 + (b[1] as int - 0x80) * 4096 + (b[2] as int - 0x80) * 64 + (b[3] as int - 0x80);
      if n < 0x1_0000 || n >= 0x11_0000 then None else Some((n as char, 4))
    else None
  }

  function Decode(b: seq<byte>): (r: Option<string>)
    decreases |b|
  {
    if b == [] then Some([])
    else
      match DecodeRune(b)
      case None => None
      case Some((c, w)) =>
        match Decode(b[w..])
        case None => None
        case Some(rest) => Some([c] + rest)
  }

  lemma Decode2(a: nat, b: nat, rest: seq<byte>)
    requires 2 <= a < 32 && b < 64
    ensures DecodeRune([0xC0 + a, 0x80 + b] + rest) == Some(((a * 64 + b) as char, 2))
  {
    var s := [0xC0 + a, 0x80 + b] + rest;
    assert s[0] == 0xC0 + a && s[1] == 0x80 + b;
  }

  lemma Decode3(a: nat, b: nat, c: nat, rest: seq<byte>)
    requires a < 16 && b < 64 && c < 64
    requires 0x800 <= a * 4096 + b * 64 + c && !(0xD800 <= a * 4096 + b * 64 + c < 0xE000)
    ensures DecodeRune([0xE0 + a, 0x80 + b, 0x80 + c] + rest) == Some(((a * 4096 + b * 64 + c) as char, 3))
  {
    var s := [0xE0 + a, 0x80 + b, 0x80 + c] + rest;
    assert s[0] == 0xE0 + a && s[1] == 0x80 + b && s[2] == 0x80 + c;
  }

  lemma Decode4(a: nat, b: nat, c: nat, d: nat, rest: seq<byte>)
    requires a < 8 && b < 64 && c < 64 && d < 64
    requires 0x1_0000 <= a * 262144 + b * 4096 + c * 64 + d < 0x11_0000
    ensures DecodeRune([0xF0 + a, 0x80 + b, 0x80 + c, 0x80 + d] + rest)
         == Some(((a * 262144 + b * 4096 + c * 64 + d) as char, 4))
  {
    var s := [0xF0 + a, 0x80 + b, 0x80 + c, 0x80 + d] + rest;
    assert s[0] == 0xF0 + a && s[1] == 0x80 + b && s[2] == 0x80 + c && s[3] == 0x80 + d;
  }

  lemma SixBits3(n: nat)
    ensures n / 4096 * 4096 + n / 64 % 64 * 64 + n % 64 == n
  {
    assert n / 4096 == n / 64 / 64;
  }

  lemma SixBits4(n: nat)
    ensures n / 262144 * 262144 + n / 4096 % 64 * 4096 + n / 64 % 64 * 64 + n % 64 == n
  {
    assert n / 262144 == n / 4096 / 64;
    SixBits3(n);
  }

  lemma DecodeEncodedRune(c: char, rest: seq<byte>)
    ensures DecodeRune(EncodeRune(c) + rest) == Some((c, |EncodeRune(c)|))
  {
    var n := c as int;
    if n < 0x80 {
      assert ([n as byte] + rest)[0] == n;
    } else {
      hide DecodeRune;
      if n < 0x800 {
        Decode2(n / 64, n % 64, rest);
      } else if n < 0x1_0000 {
        SixBits3(n);
        Decode3(n / 4096, n / 64 % 64, n % 64, rest);
      } else {
        SixBits4(n);
        Decode4(n / 262144, n / 4096 % 64, n / 64 % 64, n % 64, rest);
      }
    }
  }

  lemma DecodeStep(r: seq<byte>, c: char, tail: seq<byte>, s: string)
    requires r != [] && DecodeRune(r + tail) == Some((c, |r|))
    requires Decode(tail) == Some(s)
    ensures Decode(r + tail) == Some([c] + s)
  {
    assert (r + tail)[|r|..] == tail;
  }

  lemma {:induction false} DecodeEncode(s: string)
    ensures Decode(Encode(s)) == Some(s)
  {
    if s != [] {
      DecodeEncodedRune(s[0], Encode(s[1..]));
      DecodeEncode(s[1..]);
      DecodeStep(EncodeRune(s[0]), s[0], Encode(s[1..]), s[1..]);
      assert s == [s[0]] + s[1..];
    }
  }

  lemma Encode2(x: nat, y: nat)
    requires x < 32 && y < 64 && 0x80 <= x * 64 + y
    ensures EncodeRune((x * 64 + y) as char) == [0xC0 + x, 0x80 + y]
  {
  }

  lemma Encode3(x: nat, y: nat, z: nat)
    requires x < 16 && y < 64 && z < 64
    requires 0x800 <= x * 4096 + y * 64 + z && !(0xD800 <= x * 4096 + y * 64 + z < 0xE000)
    ensures EncodeRune((x * 4096 + y * 64 + z) as char) == [0xE0 + x, 0x80 + y, 0x80 + z]
  {
    Digits3(x, y, z);
  }

  lemma Encode4(x: nat, y: nat, z: nat, v: nat)
    requires x < 8 && y < 64 && z < 64 && v < 64
    requires 0x1_0000 <= x * 262144 + y * 4096 + z * 64 + v < 0x11_0000
    ensures EncodeRune((x * 262144 + y * 4096 + z * 64 + v) as char) == [0xF0 + x, 0x80 + y, 0x80 + z, 0x80 + v]
  {
    Digits4(x, y, z, v);
  }

  /** Decoding is strict: the first rune is encoded by the very bytes it was read from. */
  lemma EncodeDecodedRune(b: seq<byte>)
    requires b != [] && DecodeRune(b).Some?
    ensures var (c, w) := DecodeRune(b).value; EncodeRune(c) == b[..w]
  {
    if b[0] >= 0x80 {
      hide EncodeRune;
      if b[0] < 0xE0 {
        Encode2(b[0] as int - 0xC0, b[1] as int - 0x80);
        assert b[..2] == [b[0], b[1]];
      } else if b[0] < 0xF0 {
        Encode3(b[0] as int - 0xE0, b[1] as int - 0x80, b[2] as int - 0x80);
        assert b[..3] == [b[0], b[1], b[2]];
      } else {
        Encode4(b[0] as int - 0xF0, b[1] as int - 0x80, b[2] as int - 0x80, b[3] as int - 0x80);
        assert b[..4] == [b[0], b[1], b[2], b[3]];
      }
    }
  }

  lemma Digits3(x: int, y: int, z: int)
    requires 0 <= y < 64 && 0 <= z < 64
    ensures var n := x * 4096 + y * 64 + z; n / 4096 == x && n / 64 % 64 == y && n % 64 == z
  {
    var n, m := x * 4096 + y * 64 + z, x * 64 + y;
    Digit64(m, z, n);
    Digit64(x, y, m);
    assert n / 4096 == x;
  }

  lemma Digit64(q: int, r: int, n: int)
    requires n == q * 64 + r && 0 <= r < 64
    ensures n / 64 == q && n % 64 == r
  {
  }

  lemma Digits4(x: int, y: int, z: int, v: int)
    requires 0 <= y < 64 && 0 <= z < 64 && 0 <= v < 64
    ensures var n := x * 262144 + y * 4096 + z * 64 + v;
      n / 262144 == x && n / 4096 % 64 == y && n / 64 % 64 == z && n % 64 == v
  {
    var n, m := x * 262144 + y * 4096 + z * 64 + v, x * 4096 + y * 64 + z;
    Digit64(m, v, n);
    Digits3(x, y, z);
    assert n / 4096 == x * 64 + y;
    Digit64(x, y, x * 64 + y);
    assert n / 262144 == x;
  }

  lemma {:induction false} EncodeDecode(b: seq<byte>)
    requires Decode(b).Some?
    ensures Encode(Decode(b).value) == b
    decreases |b|
  {
    hide DecodeRune, EncodeRune;
    if b != [] {
      var (c, w) := DecodeRune(b).value;
      EncodeDecodedRune(b);
      EncodeDecode(b[w..]);
      var rest := Decode(b[w..]).value;
      assert ([c] + rest)[1..] == rest && b == b[..w] + b[w..];
    }
  }
}

/** base64url without padding: sections 3.2 and 5 of RFC 4648, as Go's base64.RawURLEncoding reads and writes it. */
module Base64Url {
  import opened Wrappers
  import opened Utf8

  predicate InAlphabet(c: char) {
    'A' <= c <= 'Z' || 'a' <= c <= 'z' || '0' <= c <= '9' || c == '-' || c == '_'
  }

  function Symbol(v: nat): (c: char)
    requires v < 64
    ensures InAlphabet(c) && Sextet(c) == v
  {
    if v < 26 then 'A' + v as char
    else if v < 52 then 'a' + (v - 26) as char
    else if v < 62 then '0' + (v - 52) as char
    else if v == 62 then '-' else '_'
  }

  function Sextet(c: char): (v: nat)
    requires InAlphabet(c)
    ensures v < 64
  {
    if 'A' <= c <= 'Z' then c as int - 'A' as int
    else if 'a' <= c <= 'z' then c as int - 'a' as int + 26
    else if '0' <= c <= '9' then c as int - '0' as int + 52
    else if c == '-' then 62 else 63
  }

  /** Table 2 in section 5 of RFC 4648: letters, digits, dash, underscore, each run in order. */
  lemma SymbolIs(v: nat)
    ensures Symbol(0) == 'A' && Symbol(25) == 'Z' && Symbol(26) == 'a' && Symbol(51) == 'z'
    ensures Symbol(52) == '0' && Symbol(61) == '9' && Symbol(62) == '-' && Symbol(63) == '_'
    ensures v + 1 < 62 && v + 1 != 26 && v + 1 != 52 ==> Symbol(v + 1) as int == Symbol(v) as int + 1
  {
  }

  type sextet = v: nat | v < 64

  /** Bytes regrouped six bits at a time; a short last group is filled with zero bits. */
  function ToSextets(b: seq<byte>): (v: seq<sextet>)
    ensures |v| == (8 * |b| + 5) / 6
  {
    if b == [] then []
    else if |b| == 1 then [b[0] / 4, b[0] % 4 * 16]
    else if |b| == 2 then [b[0] / 4, b[0] % 4 * 16 + b[1] / 16, b[1] % 16 * 4]
    else [b[0] / 4, b[0] % 4 * 16 + b[1] / 16, b[1] % 16 * 4 + b[2] / 64, b[2] % 64] + ToSextets(b[3..])
  }

  /** A group of three bytes and its four sextets are the same 24-bit number; a short last group is filled with zeros. */
  lemma GroupIs(b0: byte, b1: byte, b2: byte, rest: seq<byte>)
    ensures var v := ToSextets([b0, b1, b2] + rest);
      && |v| >= 4 && v[4..] == ToSextets(rest)
      && Joined64(v[..4]) == (b0 as int * 256 + b1 as int) * 256 + b2 as int
    ensures var v := ToSextets([b0]); |v| == 2 && Joined64(v) == b0 as int * 16
    ensures var v := ToSextets([b0, b1]); |v| == 3 && Joined64(v) == (b0 as int * 256 + b1 as int) * 4
  {
    assert ([b0, b1, b2] + rest)[3..] == rest;
    var v := ToSextets([b0, b1, b2] + rest);
    assert v[..4] == [v[0], v[1], v[2], v[3]];
    Joined64Is(v[0], v[1], v[2], v[3]);
    var two, three := ToSextets([b0]), ToSextets([b0, b1]);
    assert two == [two[0], two[1]] && three == [three[0], three[1], three[2]];
    Joined64Is(two[0], two[1], 0, 0);
    Joined64Is(three[0], three[1], three[2], 0);
  }

  /** Sextets as one number, most significant first. */
  function Joined64(v: seq<sextet>): int { if v == [] then 0 else 64 * Joined64(v[..|v| - 1]) + v[|v| - 1] as int }

  lemma Joined64Is(a: sextet, b: sextet, c: sextet, d: sextet)
    ensures Joined64([a, b]) == a as int * 64 + b as int
    ensures Joined64([a, b, c]) == (a as int * 64 + b as int) * 64 + c as int
    ensures Joined64([a, b, c, d]) == ((a as int * 64 + b as int) * 64 + c as int) * 64 + d as int
  {
    assert [a][..0] == [] && Joined64([a]) == a as int;
    assert [a, b][..1] == [a];
    assert [a, b, c][..2] == [a, b];
    assert [a, b, c, d][..3] == [a, b, c];
  }

  function Byte0(v0: nat, v1: nat): byte requires v0 < 64 && v1 < 64 { v0 * 4 + v1 / 16 }
  function Byte1(v1: nat, v2: nat): byte requires v1 < 64 && v2 < 64 { v1 % 16 * 16 + v2 / 4 }
  function Byte2(v2: nat, v3: nat): byte requires v2 < 64 && v3 < 64 { v2 % 4 * 64 + v3 }

  /** The spare bits of a short last group are ignored, as in the non-strict Go decoder. */
  function FromSextets(v: seq<sextet>): (r: Option<seq<byte>>) {
    if v == [] then Some([])
    else if |v| == 1 then None
    else if |v| == 2 then Some([Byte0(v[0], v[1])])
    else if |v| == 3 then Some([Byte0(v[0], v[1]), Byte1(v[1], v[2])])
    else
      match FromSextets(v[4..])
      case None => None
      case Some(rest) => Some([Byte0(v[0], v[1]), Byte1(v[1], v[2]), Byte2(v[2], v[3])] + rest)
  }

  lemma GroupRoundTrip(b0: byte, b1: byte, b2: byte)
    ensures var v1: nat, v2: nat := b0 % 4 * 16 + b1 / 16, b1 % 16 * 4 + b2 / 64;
      Byte0(b0 / 4, v1) == b0 && Byte1(v1, v2) == b1 && Byte2(v2, b2 % 64) == b2
  {
  }

  lemma GroupStep(v0: sextet, v1: sextet, v2: sextet, v3: sextet, tail: seq<sextet>, rest: seq<byte>)
    requires FromSextets(tail) == Some(rest)
    ensures FromSextets([v0, v1, v2, v3] + tail) == Some([Byte0(v0, v1), Byte1(v1, v2), Byte2(v2, v3)] + rest)
  {
    assert ([v0, v1, v2, v3] + tail)[4..] == tail;
  }

  lemma {:induction false} SextetsRoundTrip(b: seq<byte>)
    ensures FromSextets(ToSextets(b)) == Some(b)
  {
    if |b| == 1 {
      GroupRoundTrip(b[0], 0, 0);
      assert b == [b[0]];
    } else if |b| == 2 {
      GroupRoundTrip(b[0], b[1], 0);
      assert b == [b[0], b[1]];
    } else if |b| >= 3 {
      GroupRoundTrip(b[0], b[1], b[2]);
      SextetsRoundTrip(b[3..]);
      GroupStep(b[0] / 4, b[0] % 4 * 16 + b[1] / 16, b[1] % 16 * 4 + b[2] / 64, b[2] % 64,
                ToSextets(b[3..]), b[3..]);
      assert b == [b[0], b[1], b[2]] + b[3..];
    }
  }

  function Symbols(v: seq<sextet>): (s: string)
    ensures |s| == |v| && forall c :: c in s ==> InAlphabet(c)
  {
    seq(|v|, i requires 0 <= i < |v| => Symbol(v[i]))
  }

  function Sextets(s: string): (v: seq<sextet>)
    requires forall c :: c in s ==> InAlphabet(c)
    ensures |v| == |s|
  {
    seq(|s|, i requires 0 <= i < |s| => Sextet(s[i]))
  }

  /** No padding, so n bytes become ceil(8n / 6) symbols, all of the URL alphabet. */
  function Encode(b: seq<byte>): (s: string)
    ensures forall c :: c in s ==> InAlphabet(c)
    ensures |s| == (8 * |b| + 5) / 6
  {
    Symbols(ToSextets(b))
  }

  /** Go's decoder skips CR and LF anywhere in the input. */
  function DropLineBreaks(s: string): (r: string)
    ensures (forall c :: c in s ==> c != '\r' && c != '\n') ==> r == s
  {
    if s == [] then []
    else
      assert s == [s[0]] + s[1..] && s[0] in s;
      assert forall c :: c in s[1..] ==> c in s;
      if s[0] == '\r' || s[0] == '\n' then DropLineBreaks(s[1..]) else [s[0]] + DropLineBreaks(s[1..])
  }

  function Decode(s: string): (r: Option<seq<byte>>) {
    var t := DropLineBreaks(s);
    if forall c :: c in t ==> InAlphabet(c) then FromSextets(Sextets(t)) else None
  }

  lemma RoundTrip(b: seq<byte>)
    ensures Decode(Encode(b)) == Some(b)
  {
    var v := ToSextets(b);
    assert forall c :: c in Symbols(v) ==> c != '\r' && c != '\n';
    assert Sextets(Symbols(v)) == v;
    SextetsRoundTrip(b);
  }

  // ---- canonical text ----

  predicate NoLineBreak(s: string) { '\r' !in s && '\n' !in s }

  /** The bits of a short last group that encode no byte. */
  predicate SpareBitsZero(s: string) {
    && (|s| % 4 == 2 ==> InAlphabet(s[|s| - 1]) && Sextet(s[|s| - 1]) % 16 == 0)
    && (|s| % 4 == 3 ==> InAlphabet(s[|s| - 1]) && Sextet(s[|s| - 1]) % 4 == 0)
  }

  predicate SpareZero(v: seq<sextet>) {
    (|v| % 4 == 2 ==> v[|v| - 1] % 16 == 0) && (|v| % 4 == 3 ==> v[|v| - 1] % 4 == 0)
  }

  lemma GroupBack(v0: sextet, v1: sextet, v2: sextet, v3: sextet)
    ensures var b0: nat, b1: nat, b2: nat := Byte0(v0, v1), Byte1(v1, v2), Byte2(v2, v3);
      b0 / 4 == v0 && b0 % 4 * 16 + b1 / 16 == v1 && b1 % 16 * 4 + b2 / 64 == v2 && b2 % 64 == v3
      && b0 % 4 * 16 == v1 / 16 * 16 && b1 % 16 * 4 == v2 / 4 * 4
  {
  }

  lemma ToSextetsStep(v0: sextet, v1: sextet, v2: sextet, v3: sextet, rest: seq<byte>)
    ensures ToSextets([Byte0(v0, v1), Byte1(v1, v2), Byte2(v2, v3)] + rest) == [v0, v1, v2, v3] + ToSextets(rest)
  {
    GroupBack(v0, v1, v2, v3);
    assert ([Byte0(v0, v1), Byte1(v1, v2), Byte2(v2, v3)] + rest)[3..] == rest;
  }

  lemma TailSpare(v: seq<sextet>)
    requires |v| >= 4
    ensures SpareZero(v) <==> SpareZero(v[4..])
  {
    assert |v| > 4 ==> v[4..][|v| - 5] == v[|v| - 1];
  }

  lemma SameTail(p: seq<sextet>, s: seq<sextet>, t: seq<sextet>)
    ensures p + s == p + t <==> s == t
  {
    assert (p + s)[|p|..] == s && (p + t)[|p|..] == t;
  }

  lemma {:induction false} SextetsCanonical(v: seq<sextet>)
    requires FromSextets(v).Some?
    ensures ToSextets(FromSextets(v).value) == v <==> SpareZero(v)
  {
    if |v| == 2 {
      GroupBack(v[0], v[1], 0, 0);
      assert v == [v[0], v[1]];
    } else if |v| == 3 {
      GroupBack(v[0], v[1], v[2], 0);
      assert v == [v[0], v[1], v[2]];
    } else if |v| >= 4 {
      GroupBack(v[0], v[1], v[2], v[3]);
      SextetsCanonical(v[4..]);
      var rest := FromSextets(v[4..]).value;
      ToSextetsStep(v[0], v[1], v[2], v[3], rest);
      TailSpare(v);
      assert v == [v[0], v[1], v[2], v[3]] + v[4..];
      hide SpareZero, ToSextets;
      assert [v[0], v[1], v[2], v[3]] + ToSextets(rest) == v <==> ToSextets(rest) == v[4..] by {
        SameTail([v[0], v[1], v[2], v[3]], ToSextets(rest), v[4..]);
      }
    }
  }

  lemma {:induction false} LineBreaksDropped(s: string)
    ensures NoLineBreak(DropLineBreaks(s))
    ensures DropLineBreaks(s) == s <==> NoLineBreak(s)
  {
    if s != [] {
      LineBreaksDropped(s[1..]);
      assert s == [s[0]] + s[1..];
    }
  }

  lemma SymbolsBack(s: string)
    requires forall c :: c in s ==> InAlphabet(c)
    ensures Symbols(Sextets(s)) == s
  {
    forall i | 0 <= i < |s| ensures Symbol(Sextet(s[i])) == s[i] {
      assert s[i] in s;
    }
  }

  /** An accepted text is the encoding of what it decodes to exactly when it has no line break and no spare bit set. */
  lemma CanonicalIff(s: string)
    requires Decode(s).Some?
    ensures Encode(Decode(s).value) == s <==> NoLineBreak(s) && SpareBitsZero(s)
  {
    hide DropLineBreaks, FromSextets, ToSextets;
    LineBreaksDropped(s);
    if NoLineBreak(s) {
      var v := Sextets(s);
      SextetsCanonical(v);
      SymbolsBack(s);
      assert |s| % 4 in {2, 3} ==> s[|s| - 1] in s;
      if Encode(Decode(s).value) == s {
        SextetsOfSymbols(ToSextets(Decode(s).value));
      }
    } else {
      assert forall c :: InAlphabet(c) ==> c != '\r' && c != '\n';
    }
  }

  lemma SextetsOfSymbols(v: seq<sextet>)
    ensures Sextets(Symbols(v)) == v
  {
  }
}

/**
 Pack ids: internal/baserver PackIDForAgent and AgentIDFromPackID. Building starts from an id that is text;
 what parsing yields is any bytes, since base64 can carry them.
 */
module PackId {
  import opened Wrappers
  import opened Text
  import opened ByteText
  import Utf8
  import Base64Url

  const PREFIX := "agent-local-install/v1/"

  function ReplaceDash(c: char): char { if c == '-' then '_' else c }

  function NormalizeClient(f: CaseMap, client: string): string {
    ToLower(f, MapChars(ReplaceDash, Trim(client)))
  }

  predicate SupportedClient(client: string)
    ensures SupportedClient(client) ==> '/' !in client
  {
    client == "claude_code" || client == "codex"
  }

  function Payload(agentId: string): (e: string)
    ensures '/' !in e && Trimmed(e)
    ensures Trim(agentId) != [] ==> e != []
  {
    var b := Utf8.Encode(Trim(agentId));
    AlphabetIsTrimmed(Base64Url.Encode(b));
    Base64Url.Encode(b)
  }

  lemma AlphabetIsTrimmed(e: string)
    requires forall c :: c in e ==> Base64Url.InAlphabet(c)
    ensures Trimmed(e) && '/' !in e
  {
    if e != [] {
      assert e[0] in e && e[|e| - 1] in e;
    }
  }

  function Compose(prefix: string, client: string, payload: string): string {
    prefix + (client + ['/'] + payload)
  }

  /** The two functions below, over any prefix. */
  function Build(prefix: string, f: CaseMap, agentId: string, client: string): (r: Option<string>) {
    var c := NormalizeClient(f, client);
    if Trim(agentId) == [] || !SupportedClient(c) then None else Some(Compose(prefix, c, Payload(agentId)))
  }

  function Parse(prefix: string, packId: string): (r: Option<Bytes>) {
    ParseTrimmed(prefix, Trim(packId))
  }

  function ParseTrimmed(prefix: string, p: string): (r: Option<Bytes>) {
    if prefix <= p then ParseParts(Split(p[|prefix|..], '/')) else None
  }

  function ParseParts(parts: seq<string>): (r: Option<Bytes>) {
    if |parts| != 2 || !SupportedClient(parts[0]) || Trim(parts[1]) == [] then None
    else
      match Base64Url.Decode(parts[1])
      case None => None
      case Some(raw) => if TrimBytes(raw) == [] then None else Some(TrimBytes(raw))
  }

  function PackIdForAgent(f: CaseMap, agentId: string, client: string): (r: Option<string>)
    ensures r.Some? <==> Trim(agentId) != [] && SupportedClient(NormalizeClient(f, client))
  {
    Build(PREFIX, f, agentId, client)
  }

  /** AgentIDFromPackID: the id as bytes. */
  function AgentBytesFromPackId(packId: string): (r: Option<Bytes>)
    ensures r.Some? ==> r.value != []
  {
    Parse(PREFIX, packId)
  }

  /** The id when it is text. */
  function AgentIdFromPackId(packId: string): (r: Option<string>) {
    match AgentBytesFromPackId(packId)
    case None => None
    case Some(bytes) => Utf8.Decode(bytes)
  }

  /** An id that is text is trimmed, and its bytes are those that were carried. */
  lemma IdIsText(packId: string)
    requires AgentIdFromPackId(packId).Some?
    ensures var id := AgentIdFromPackId(packId).value;
      id != [] && Trim(id) == id && AgentBytesFromPackId(packId) == Some(Utf8.Encode(id))
  {
    hide Trim, TrimBytes, Utf8.Decode, Utf8.Encode, Base64Url.Decode, Split, SupportedClient;
    var bytes, id := AgentBytesFromPackId(packId).value, AgentIdFromPackId(packId).value;
    Utf8.EncodeDecode(bytes);
    ParsedTrimmed(packId);
    TrimBytesOf(id);
    Utf8.DecodeEncode(id);
    Utf8.DecodeEncode(Trim(id));
  }

  lemma ParsedTrimmed(packId: string)
    requires AgentBytesFromPackId(packId).Some?
    ensures TrimBytes(AgentBytesFromPackId(packId).value) == AgentBytesFromPackId(packId).value
  {
    hide Trim, TrimBytes, Base64Url.Decode, Split, SupportedClient;
    var parts := Split(Trim(packId)[|PREFIX|..], '/');
    TrimBytesTwice(Base64Url.Decode(parts[1]).value);
  }

  /** p is a whole pack id: trimmed, with the prefix, and with these two parts after it. */
  ghost predicate HasParts(prefix: string, p: string, client: string, payload: string) {
    && p != [] && Trim(p) == p
    && prefix <= p
    && Split(p[|prefix|..], '/') == [client, payload]
  }

  lemma ComposedTrimmed(prefix: string, client: string, payload: string)
    requires prefix != [] && !IsSpace(prefix[0])
    requires payload != [] && Trimmed(payload)
    ensures var p := Compose(prefix, client, payload);
      p != [] && Trim(p) == p && prefix <= p && p[|prefix|..] == client + ['/'] + payload
  {
    var p := Compose(prefix, client, payload);
    assert p[|p| - 1] == payload[|payload| - 1] && p[0] == prefix[0];
    assert Trimmed(p);
  }

  lemma ComposedParts(prefix: string, client: string, payload: string)
    requires prefix != [] && !IsSpace(prefix[0])
    requires payload != [] && Trimmed(payload)
    requires '/' !in client && '/' !in payload
    ensures HasParts(prefix, Compose(prefix, client, payload), client, payload)
  {
    ComposedTrimmed(prefix, client, payload);
    SplitAt(client, '/', payload);
    SplitWhole(payload, '/');
  }

  lemma ParseFromParts(prefix: string, p: string, client: string, payload: string)
    requires HasParts(prefix, p, client, payload)
    ensures Parse(prefix, p) == ParseParts([client, payload])
  {
  }

  lemma ParseComposed(client: string, agentId: string)
    requires Trim(agentId) != [] && SupportedClient(client)
    ensures ParseParts([client, Payload(agentId)]) == Some(Utf8.Encode(Trim(agentId)))
  {
    hide Trim, TrimBytes, Base64Url.Decode, Base64Url.Encode, Utf8.Encode, SupportedClient;
    Base64Url.RoundTrip(Utf8.Encode(Trim(agentId)));
    TrimBytesOf(Trim(agentId));
    TrimTwice(agentId);
  }

  lemma ParseBuilt(prefix: string, f: CaseMap, agentId: string, client: string, p: string)
    requires prefix != [] && !IsSpace(prefix[0])
    requires Build(prefix, f, agentId, client) == Some(p)
    ensures Parse(prefix, p) == Some(Utf8.Encode(Trim(agentId)))
    ensures HasParts(prefix, p, NormalizeClient(f, client), Payload(agentId))
  {
    var c, e := NormalizeClient(f, client), Payload(agentId);
    assert p == Compose(prefix, c, e);
    ComposedParts(prefix, c, e);
    ParseFromParts(prefix, p, c, e);
    ParseComposed(c, agentId);
  }

  /** AgentIDFromPackID undoes PackIDForAgent, up to trimming, for every non-blank id and supported client. */
  lemma RoundTrip(f: CaseMap, agentId: string, client: string, p: string)
    requires PackIdForAgent(f, agentId, client) == Some(p)
    ensures AgentIdFromPackId(p) == Some(Trim(agentId))
    ensures p != [] && Trim(p) == p
  {
    hide Trim, Split, NormalizeClient, Payload, Compose, ParseTrimmed, SupportedClient, Utf8.Encode, Utf8.Decode;
    ParseBuilt(PREFIX, f, agentId, client, p);
    Utf8.DecodeEncode(Trim(agentId));
  }

  lemma PartsUnique(prefix: string, p: string, c1: string, e1: string, c2: string, e2: string)
    requires HasParts(prefix, p, c1, e1) && HasParts(prefix, p, c2, e2)
    ensures c1 == c2
  {
    assert [c1, e1][0] == [c2, e2][0];
  }

  /** Distinct (trimmed id, client) pairs get distinct pack ids. */
  lemma Injective(f: CaseMap, id1: string, client1: string, id2: string, client2: string, p: string)
    requires PackIdForAgent(f, id1, client1) == Some(p) && PackIdForAgent(f, id2, client2) == Some(p)
    ensures Trim(id1) == Trim(id2) && NormalizeClient(f, client1) == NormalizeClient(f, client2)
  {
    hide Trim, Split, NormalizeClient, Payload, Compose, ParseTrimmed, SupportedClient, HasParts, Utf8.Encode, Utf8.Decode;
    ParseBuilt(PREFIX, f, id1, client1, p);
    ParseBuilt(PREFIX, f, id2, client2, p);
    Utf8.DecodeEncode(Trim(id1));
    Utf8.DecodeEncode(Trim(id2));
    PartsUnique(PREFIX, p, NormalizeClient(f, client1), Payload(id1), NormalizeClient(f, client2), Payload(id2));
  }

  // ---- canonical pack ids ----

  lemma SupportedPlain(f: CaseMap, client: string)
    requires SupportedClient(client)
    ensures NormalizeClient(f, client) == client && Normalize(f, client) == client && client != "" && Trimmed(client)
  {
    assert Trimmed(client) && forall c :: c in client ==> 'a' <= c <= 'z' || c == '_';
    assert MapChars(ReplaceDash, client) == client;
    forall c | c in client ensures f(c) == c {
      assert LawAt(f, c);
    }
    LowerFixed(f, client);
  }

  /** The parts of an accepted pack id. */
  function ClientOf(p: string): string
    requires AgentBytesFromPackId(p).Some?
  {
    Split(Trim(p)[|PREFIX|..], '/')[0]
  }

  function PayloadOf(p: string): string
    requires AgentBytesFromPackId(p).Some?
  {
    Split(Trim(p)[|PREFIX|..], '/')[1]
  }

  lemma AcceptedParts(p: string)
    requires AgentBytesFromPackId(p).Some?
    ensures SupportedClient(ClientOf(p)) && Base64Url.Decode(PayloadOf(p)).Some?
    ensures AgentBytesFromPackId(p) == Some(TrimBytes(Base64Url.Decode(PayloadOf(p)).value))
    ensures Trim(p) == Compose(PREFIX, ClientOf(p), PayloadOf(p))
  {
    hide Trim, Base64Url.Decode, TrimBytes, SupportedClient;
    var rest := Trim(p)[|PREFIX|..];
    SplitTwo(rest, '/', ClientOf(p), PayloadOf(p));
  }

  function BytesPayload(id: Bytes): string { Base64Url.Encode(TrimBytes(id)) }

  /** PackIDForAgent on the bytes of an id. */
  function PackIdForBytes(f: CaseMap, id: Bytes, client: string): Option<string> {
    var c := NormalizeClient(f, client);
    if TrimBytes(id) == [] || !SupportedClient(c) then None else Some(Compose(PREFIX, c, BytesPayload(id)))
  }

  /** On text the two agree. */
  lemma TextAgrees(f: CaseMap, id: string, client: string)
    ensures PackIdForBytes(f, Utf8.Encode(id), client) == PackIdForAgent(f, id, client)
  {
    hide Trim, TrimBytes, NormalizeClient, SupportedClient, Base64Url.Encode, Compose;
    TrimBytesOf(id);
    if Trim(id) == [] {
      assert Utf8.Encode(Trim(id)) == [];
    }
  }

  /** The payload built from decoded bytes is the accepted one exactly when that is canonical and the bytes are trimmed. */
  lemma PayloadCanonicalIff(payload: string)
    requires Base64Url.Decode(payload).Some?
    ensures var raw := Base64Url.Decode(payload).value;
      BytesPayload(TrimBytes(raw)) == payload
      <==> Base64Url.NoLineBreak(payload) && Base64Url.SpareBitsZero(payload) && TrimBytes(raw) == raw
  {
    hide TrimBytes, Base64Url.Encode, Base64Url.Decode, Base64Url.SpareBitsZero, Base64Url.NoLineBreak;
    var raw := Base64Url.Decode(payload).value;
    TrimBytesTwice(raw);
    Base64Url.CanonicalIff(payload);
    Base64Url.RoundTrip(TrimBytes(raw));
  }

  /**
   Building a pack id from the parts of an accepted one gives that pack id back exactly when it is trimmed, its
   payload has no line break and no spare bit set, and its decoded id is trimmed, whatever bytes that id is.
   */
  lemma RebuiltIff(f: CaseMap, p: string)
    requires AgentBytesFromPackId(p).Some?
    ensures Base64Url.Decode(PayloadOf(p)).Some?
    ensures var raw := Base64Url.Decode(PayloadOf(p)).value;
      PackIdForBytes(f, AgentBytesFromPackId(p).value, ClientOf(p)) == Some(p)
      <==> && Trim(p) == p && Base64Url.NoLineBreak(PayloadOf(p)) && Base64Url.SpareBitsZero(PayloadOf(p))
           && TrimBytes(raw) == raw
    ensures AgentIdFromPackId(p).Some? ==>
      PackIdForAgent(f, AgentIdFromPackId(p).value, ClientOf(p))
      == PackIdForBytes(f, AgentBytesFromPackId(p).value, ClientOf(p))
  {
    AcceptedParts(p);
    hide Trim, TrimBytes, BytesPayload, SupportedClient, Compose, Base64Url.SpareBitsZero, Base64Url.NoLineBreak,
      ClientOf, PayloadOf, AgentBytesFromPackId, AgentIdFromPackId, PackIdForAgent, PackIdForBytes, Base64Url.Decode;
    var c, e, id := ClientOf(p), PayloadOf(p), AgentBytesFromPackId(p).value;
    PayloadCanonicalIff(e);
    ParsedTrimmed(p);
    BuiltFrom(f, id, c);
    ComposeInjective(PREFIX, c, BytesPayload(id), e);
    if AgentIdFromPackId(p).Some? {
      IdIsText(p);
      TextAgrees(f, AgentIdFromPackId(p).value, c);
    }
  }

  lemma BuiltFrom(f: CaseMap, id: Bytes, client: string)
    requires id != [] && TrimBytes(id) == id && SupportedClient(client)
    ensures var p := Compose(PREFIX, client, BytesPayload(id));
      PackIdForBytes(f, id, client) == Some(p) && Trim(p) == p
  {
    hide Trim, TrimBytes, SupportedClient, Base64Url.Encode, Compose;
    SupportedPlain(f, client);
    AlphabetIsTrimmed(BytesPayload(id));
    ComposedTrimmed(PREFIX, client, BytesPayload(id));
  }

  lemma ComposeInjective(prefix: string, client: string, e1: string, e2: string)
    ensures Compose(prefix, client, e1) == Compose(prefix, client, e2) <==> e1 == e2
  {
    var p := prefix + (client + ['/']);
    assert Compose(prefix, client, e1) == p + e1 && Compose(prefix, client, e2) == p + e2;
    assert (p + e1)[|p|..] == e1 && (p + e2)[|p|..] == e2;
  }

  function WithPayload(client: string, payload: string): string { Compose(PREFIX, client, payload) }

  /** An accepted payload makes an accepted pack id. */
  lemma WithPayloadAccepted(payload: string, raw: Bytes)
    requires payload != [] && Trimmed(payload) && '/' !in payload
    requires Base64Url.Decode(payload) == Some(raw) && TrimBytes(raw) == raw && raw != []
    ensures AgentBytesFromPackId(WithPayload("codex", payload)) == Some(raw)
  {
    hide Trim, TrimBytes, Base64Url.Decode;
    ComposedParts(PREFIX, "codex", payload);
    ParseFromParts(PREFIX, Compose(PREFIX, "codex", payload), "codex", payload);
  }

  /** Two accepted pack ids of the same agent and client that differ in spare bits alone. */
  lemma Aliases()
    ensures WithPayload("codex", "YQ") != WithPayload("codex", "YR")
    ensures AgentIdFromPackId(WithPayload("codex", "YQ")) == AgentIdFromPackId(WithPayload("codex", "YR")) == Some("a")
  {
    hide AgentIdFromPackId, Compose;
    AliasOf("YQ");
    AliasOf("YR");
    ComposeInjective(PREFIX, "codex", "YQ", "YR");
    assert "YQ"[1] != "YR"[1];
  }

  lemma AliasOf(payload: string)
    requires payload == "YQ" || payload == "YR"
    ensures AgentIdFromPackId(WithPayload("codex", payload)) == Some("a")
  {
    hide Base64Url.Decode, AgentBytesFromPackId, TrimBytes, Utf8.Encode, Utf8.Decode, Trim, WithPayload;
    AliasPayload(payload);
    LetterA();
    WithPayloadAccepted(payload, [97]);
  }

  lemma LetterA()
    ensures Utf8.Decode([97]) == Some("a") && TrimBytes([97]) == [97]
  {
    hide TrimBytes, Utf8.Decode, Trim;
    assert Utf8.Encode("a") == [97] && Trimmed("a");
    TrimBytesOf("a");
    Utf8.DecodeEncode("a");
  }

  lemma AliasPayload(payload: string)
    requires payload == "YQ" || payload == "YR"
    ensures Base64Url.Decode(payload) == Some([97]) && payload != [] && Trimmed(payload) && '/' !in payload
  {
    var v := Base64Url.Sextets(payload);
    assert v[0] == 24 && v[1] / 16 == 1;
    assert Base64Url.FromSextets(v) == Some([97]);
  }

  /** An accepted pack id whose agent id is no text: the payload "_w" carries the byte 0xFF. */
  lemma NoText()
    ensures AgentBytesFromPackId(WithPayload("codex", "_w")) == Some([255])
    ensures AgentIdFromPackId(WithPayload("codex", "_w")) == None
  {
    hide Base64Url.Decode, AgentBytesFromPackId, TrimBytes, Trimmed, Utf8.Decode, WithPayload;
    NoTextPayload();
    WithPayloadAccepted("_w", [255]);
    NoRune();
  }

  lemma NoRune()
    ensures Utf8.Decode([255]) == None
  {
    assert Utf8.DecodeRune([255]) == None;
  }

  lemma NoTextPayload()
    ensures Base64Url.Decode("_w") == Some([255]) && TrimBytes([255]) == [255] && Trimmed("_w") && '/' !in "_w"
  {
    var v := Base64Url.Sextets("_w");
    assert v[0] == 63 && v[1] == 48;
    assert Base64Url.FromSextets(v) == Some([255]);
    assert Utf8.DecodeRune([255]) == None && [255][|[255]| - 1..] == [255];
  }
}

/**
 Text as the stores and codecs handle it. A string is a sequence of code points. Trimming uses
 Unicode white space; lower-casing is any code-point map that obeys the laws of `Lawful`, so every
 theorem below holds whatever the non-ASCII part of the case table is.
 */
module Text {

  /** Unicode White_Space, the set Go's strings.TrimSpace removes. */
  predicate IsSpace(c: char) {
    || '\t' <= c <= '\r' || c == ' ' || c == '\U{0085}' || c == '\U{00A0}' || c == '\U{1680}'
    || '\U{2000}' <= c <= '\U{200A}' || c == '\U{2028}' || c == '\U{2029}' || c == '\U{202F}'
    || c == '\U{205F}' || c == '\U{3000}'
  }

  predicate IsUpper(c: char) { 'A' <= c <= 'Z' }

  predicate Trimmed(s: string) {
    s == [] || (!IsSpace(s[0]) && !IsSpace(s[|s| - 1]))
  }

  /** The first position from i on that holds no white space, or |s|. */
  function FirstText(s: string, i: nat): (r: nat)
    requires i <= |s|
    ensures i <= r <= |s| && (r < |s| ==> !IsSpace(s[r]))
    decreases |s| - i
  {
    if i < |s| && IsSpace(s[i]) then FirstText(s, i + 1) else i
  }

  /** One past the last position below i that holds no white space, or 0. */
  function LastText(s: string, i: nat): (r: nat)
    requires i <= |s|
    ensures r <= i && (r > 0 ==> !IsSpace(s[r - 1]))
  {
    if i > 0 && IsSpace(s[i - 1]) then LastText(s, i - 1) else i
  }

  function Trim(s: string): (r: string)
    ensures Trimmed(r)
    ensures Trimmed(s) ==> r == s
  {
    var a, b := FirstText(s, 0), LastText(s, |s|);
    if a < b then s[a..b] else []
  }

  /** Only white space is cut off, on both sides, and all of it. */
  lemma TrimIs(s: string) returns (before: string, after: string)
    ensures s == before + Trim(s) + after && Trimmed(Trim(s))
    ensures forall c :: c in before || c in after ==> IsSpace(c)
  {
    var a, b := FirstText(s, 0), LastText(s, |s|);
    SpaceBefore(s, 0);
    SpaceAfter(s, |s|);
    if a < b {
      before, after := s[..a], s[b..];
      assert s == s[..a] + s[a..b] + s[b..];
    } else {
      before, after := s, "";
      assert s == s + [] + [];
      forall i | 0 <= i < |s| ensures IsSpace(s[i]) {
        assert i < a || i >= b;
      }
    }
  }

  lemma {:induction false} SpaceBefore(s: string, i: nat)
    requires i <= |s|
    ensures forall k :: i <= k < FirstText(s, i) ==> IsSpace(s[k])
    decreases |s| - i
  {
    if i < |s| && IsSpace(s[i]) {
      SpaceBefore(s, i + 1);
    }
  }

  lemma {:induction false} SpaceAfter(s: string, i: nat)
    requires i <= |s|
    ensures forall k :: LastText(s, i) <= k < i ==> IsSpace(s[k])
  {
    if i > 0 && IsSpace(s[i - 1]) {
      SpaceAfter(s, i - 1);
    }
  }

  // ---- case mapping ----

  function AsciiLower(c: char): char {
    if IsUpper(c) then c + 32 as char else c
  }

  /** What the proofs need of a lower-casing table at one code point; unicode.ToLower obeys it everywhere. */
  ghost predicate LawAt(f: char -> char, c: char) {
    && f(f(c)) == f(c)
    && IsSpace(f(c)) == IsSpace(c)
    && (c < '\U{0080}' ==> f(c) == AsciiLower(c))
  }

  ghost predicate LawfulCase(f: char -> char) {
    forall c :: LawAt(f, c)
  }

  type CaseMap = f: char -> char | LawfulCase(f) witness (c: char) => AsciiLower(c)

  function MapChars(f: char -> char, s: string): (r: string)
    ensures |r| == |s| && forall i :: 0 <= i < |s| ==> r[i] == f(s[i])
  {
    seq(|s|, i requires 0 <= i < |s| => f(s[i]))
  }

  /** A lower-cased string has no upper-case ASCII letter, and lower-casing it again changes nothing. */
  function ToLower(f: CaseMap, s: string): (r: string)
    ensures |r| == |s|
    ensures forall c :: c in r ==> !IsUpper(c) && f(c) == c
    ensures Trimmed(s) ==> Trimmed(r)
  {
    var r := MapChars(f, s);
    assert forall c :: c in r ==> !IsUpper(c) && f(c) == c by {
      forall c | c in r ensures !IsUpper(c) && f(c) == c {
        var i :| 0 <= i < |r| && r[i] == c;
        assert LawAt(f, s[i]) && LawAt(f, c);
      }
    }
    assert s != [] ==> LawAt(f, s[0]) && LawAt(f, s[|s| - 1]);
    r
  }

  /** The common normal form: trim, then lower-case. */
  function Normalize(f: CaseMap, s: string): (r: string)
    ensures Trimmed(r)
    ensures forall c :: c in r ==> !IsUpper(c) && f(c) == c
  {
    ToLower(f, Trim(s))
  }

  lemma LowerFixed(f: CaseMap, s: string)
    requires forall c :: c in s ==> f(c) == c
    ensures ToLower(f, s) == s
  {
    assert forall i :: 0 <= i < |s| ==> s[i] in s;
  }

  lemma NormalizeIdempotent(f: CaseMap, s: string)
    ensures Normalize(f, Normalize(f, s)) == Normalize(f, s)
  {
    LowerFixed(f, Normalize(f, s));
  }

  // ---- splitting ----

  function Split(s: string, sep: char): (parts: seq<string>)
    ensures |parts| >= 1
    ensures forall p :: p in parts ==> sep !in p
  {
    if s == [] then [[]]
    else
      var rest := Split(s[1..], sep);
      if s[0] == sep then [[]] + rest else [[s[0]] + rest[0]] + rest[1..]
  }

  lemma {:induction false} SplitWhole(a: string, sep: char)
    requires sep !in a
    ensures Split(a, sep) == [a]
  {
    if a != [] {
      assert a == [a[0]] + a[1..] && a[0] in a && (forall c :: c in a[1..] ==> c in a);
      SplitWhole(a[1..], sep);
    }
  }

  lemma {:induction false} SplitAt(a: string, sep: char, b: string)
    requires sep !in a
    ensures Split(a + [sep] + b, sep) == [a] + Split(b, sep)
  {
    if a == [] {
      assert (a + [sep] + b)[1..] == b;
    } else {
      assert a == [a[0]] + a[1..] && a[0] in a && (forall c :: c in a[1..] ==> c in a);
      SplitAt(a[1..], sep, b);
      assert (a + [sep] + b)[1..] == a[1..] + [sep] + b;
    }
  }

  lemma {:induction false} SplitOne(s: string, sep: char, a: string)
    requires Split(s, sep) == [a]
    ensures s == a
  {
    if s != [] {
      var rest := Split(s[1..], sep);
      assert s == [s[0]] + s[1..];
      if s[0] != sep {
        var parts := [[s[0]] + rest[0]] + rest[1..];
        assert |parts| == |rest| == 1 && parts[0] == a && rest == [rest[0]];
        SplitOne(s[1..], sep, rest[0]);
      }
    }
  }

  /** Two parts rejoin to the text that was split. */
  lemma {:induction false} SplitTwo(s: string, sep: char, a: string, b: string)
    requires Split(s, sep) == [a, b]
    ensures s == a + [sep] + b
  {
    assert s != [];
    var rest := Split(s[1..], sep);
    assert s == [s[0]] + s[1..];
    if s[0] == sep {
      assert ([[]] + rest)[1..] == rest && [a, b][1..] == [b] && [a, b][0] == a;
      SplitOne(s[1..], sep, b);
    } else {
      var parts := [[s[0]] + rest[0]] + rest[1..];
      assert parts[0] == a && parts[1] == b && rest[1] == b;
      SplitTwo(s[1..], sep, rest[0], b);
    }
  }

  /** The parts with the separator between any two. */
  function Rejoined(parts: seq<string>, sep: char): string
    requires parts != []
  {
    if |parts| == 1 then parts[0] else parts[0] + [sep] + Rejoined(parts[1..], sep)
  }

  /** No part holds the separator, and rejoined they are the text. */
  lemma {:induction false} SplitRejoins(s: string, sep: char)
    ensures Rejoined(Split(s, sep), sep) == s
  {
    if s != [] {
      var rest := Split(s[1..], sep);
      SplitRejoins(s[1..], sep);
      assert s == [s[0]] + s[1..];
      if s[0] == sep {
        assert ([[]] + rest)[1..] == rest;
      } else {
        var parts := [[s[0]] + rest[0]] + rest[1..];
        assert parts[1..] == rest[1..];
      }
    }
  }

  // ---- decimal numerals ----

  function Digit(d: nat): (c: char)
    requires d < 10
    ensures '0' <= c <= '9' && c as int - '0' as int == d
  {
    d as char + '0'
  }

  function Pow10(w: nat): (p: nat)
    ensures p >= 1
  {
    if w == 0 then 1 else 10 * Pow10(w - 1)
  }

  /** The last w decimal digits of n, most significant first: fmt's %0<w>d for n < 10^w. */
  function Padded(n: nat, w: nat): (r: string)
    ensures |r| == w
    ensures forall c :: c in r ==> '0' <= c <= '9'
  {
    if w == 0 then [] else Padded(n / 10, w - 1) + [Digit(n % 10)]
  }

  /** fmt's %d for a non-negative number. */
  function Decimal(n: nat): (r: string)
    ensures |r| >= 1
  {
    if n < 10 then [Digit(n)] else Decimal(n / 10) + [Digit(n % 10)]
  }

  lemma {:induction false} DecimalInjective(m: nat, n: nat)
    requires Decimal(m) == Decimal(n)
    ensures m == n
  {
    var s, t := Decimal(m), Decimal(n);
    assert s[|s| - 1] == Digit(m % 10) && t[|t| - 1] == Digit(n % 10);
    if m >= 10 && n >= 10 {
      assert s[..|s| - 1] == Decimal(m / 10) && t[..|t| - 1] == Decimal(n / 10);
      DecimalInjective(m / 10, n / 10);
    }
  }

  // ---- lexicographic order, the order of Go string comparison and of DynamoDB sort keys ----

  predicate Below(s: string, t: string) {
    t != [] && (s == [] || s[0] < t[0] || (s[0] == t[0] && Below(s[1..], t[1..])))
  }

  lemma {:induction false} BelowTotal(s: string, t: string)
    ensures Below(s, t) || s == t || Below(t, s)
    ensures !(Below(s, t) && Below(t, s))
    ensures !Below(s, s)
  {
    if s != [] && t != [] {
      BelowTotal(s[1..], t[1..]);
      assert s == [s[0]] + s[1..] && t == [t[0]] + t[1..];
    }
    if s != [] {
      BelowIrreflexive(s);
    }
  }

  lemma {:induction false} BelowIrreflexive(s: string)
    ensures !Below(s, s)
  {
    if s != [] {
      BelowIrreflexive(s[1..]);
    }
  }

  lemma {:induction false} BelowTransitive(s: string, t: string, u: string)
    requires Below(s, t) && Below(t, u)
    ensures Below(s, u)
  {
    if s != [] && s[0] == t[0] && t[0] == u[0] {
      BelowTransitive(s[1..], t[1..], u[1..]);
    }
  }

  lemma {:induction false} BelowCommonPrefix(p: string, s: string, t: string)
    ensures Below(p + s, p + t) <==> Below(s, t)
  {
    if p == [] {
      assert p + s == s && p + t == t;
    } else {
      assert (p + s)[1..] == p[1..] + s && (p + t)[1..] == p[1..] + t;
      BelowCommonPrefix(p[1..], s, t);
    }
  }

  lemma TrimTwice(s: string)
    ensures Trim(Trim(s)) == Trim(s)
  {
    hide Trim;
  }

  // ---- names of SHA-256 digests ----

  predicate LowerHex(c: char) { '0' <= c <= '9' || 'a' <= c <= 'f' }

  /** "sha256:" and 64 lower-case hexadecimal digits. */
  predicate Sha256Name(s: string) {
    |s| == 7 + 64 && s[..7] == "sha256:" && forall i :: 7 <= i < |s| ==> LowerHex(s[i])
  }
}

/** Text as bytes: strings.TrimSpace on a Go string, which need not be UTF-8. */
module ByteText {
  import opened Wrappers
  import opened Text
  import opened Utf8

  type Bytes = seq<byte>

  /** The width of the white space at the start, or 0; bytes that are no rune are no white space. */
  function SpaceWidth(b: Bytes): (w: nat)
    ensures w <= |b|
  {
    if b == [] then 0
    else
      match DecodeRune(b)
      case None => 0
      case Some((c, w)) => if IsSpace(c) then w else 0
  }

  /** The last w bytes are one white-space rune. */
  predicate SpaceTail(b: Bytes, w: nat) { 1 <= w <= |b| && SpaceWidth(b[|b| - w..]) == w }

  function TailWidth(b: Bytes): (w: nat)
    ensures w <= |b|
  {
    if SpaceTail(b, 1) then 1 else if SpaceTail(b, 2) then 2 else if SpaceTail(b, 3) then 3 else if SpaceTail(b, 4) then 4 else 0
  }

  function TrimLeft(b: Bytes): (r: Bytes)
    ensures |r| <= |b| && (|r| == |b| ==> r == b) && SpaceWidth(r) == 0
  {
    if SpaceWidth(b) > 0 then TrimLeft(b[SpaceWidth(b)..]) else b
  }

  function TrimRight(b: Bytes): (r: Bytes)
    ensures |r| <= |b| && r == b[..|r|] && TailWidth(r) == 0
  {
    if TailWidth(b) > 0 then TrimRight(b[..|b| - TailWidth(b)]) else b
  }

  function TrimBytes(b: Bytes): (r: Bytes)
    ensures |r| <= |b| && (|r| == |b| ==> r == b)
  {
    TrimRight(TrimLeft(b))
  }

  lemma PrefixRune(b: Bytes, n: nat)
    requires 0 < n <= |b| && DecodeRune(b[..n]).Some?
    ensures DecodeRune(b) == DecodeRune(b[..n])
  {
  }

  lemma TrimBytesTwice(b: Bytes)
    ensures TrimBytes(TrimBytes(b)) == TrimBytes(b)
  {
    var l := TrimLeft(b);
    var r := TrimRight(l);
    if r != [] && DecodeRune(r).Some? {
      PrefixRune(l, |r|);
    }
    assert SpaceWidth(r) == 0;
  }

  // ---- on UTF-8 it is the trimming of the text ----

  lemma EncodeCons(c: char, t: string)
    ensures Encode([c] + t) == EncodeRune(c) + Encode(t)
  {
    hide EncodeRune;
    assert ([c] + t)[1..] == t;
  }

  lemma {:induction false} EncodeConcat(s: string, t: string)
    ensures Encode(s + t) == Encode(s) + Encode(t)
  {
    hide Encode, EncodeRune;
    if s == [] {
      assert s + t == t && Encode(s) == [];
    } else {
      var c, rest := s[0], s[1..];
      EncodeConcat(rest, t);
      EncodeCons(c, rest);
      EncodeCons(c, rest + t);
      assert s == [c] + rest && s + t == [c] + (rest + t);
      assert (EncodeRune(c) + Encode(rest)) + Encode(t) == EncodeRune(c) + (Encode(rest) + Encode(t));
    }
  }

  lemma EncodeOne(c: char)
    ensures Encode([c]) == EncodeRune(c)
  {
    assert [c][1..] == [] && Encode([]) == [];
  }

  lemma SpaceWidthOf(s: string)
    ensures SpaceWidth(Encode(s)) == if s != [] && IsSpace(s[0]) then |EncodeRune(s[0])| else 0
  {
    hide DecodeRune, EncodeRune;
    if s != [] {
      DecodeEncodedRune(s[0], Encode(s[1..]));
    }
  }

  lemma {:induction false} TrimLeftOf(s: string, i: nat)
    requires i <= |s|
    ensures TrimLeft(Encode(s[i..])) == Encode(s[FirstText(s, i)..])
    decreases |s| - i
  {
    hide DecodeRune, EncodeRune, SpaceWidth;
    SpaceWidthOf(s[i..]);
    if i < |s| && IsSpace(s[i]) {
      assert s[i..][1..] == s[i + 1..];
      var b := Encode(s[i..]);
      assert b == EncodeRune(s[i]) + Encode(s[i + 1..]);
      assert b[|EncodeRune(s[i])|..] == Encode(s[i + 1..]);
      TrimLeftOf(s, i + 1);
    }
  }

  /** The first byte of a rune is no continuation byte, and the others are. */
  lemma RuneBytes(c: char, k: nat)
    requires k < |EncodeRune(c)|
    ensures Cont(EncodeRune(c)[k]) <==> k > 0
  {
  }

  /** A rune read from the start of b has continuation bytes after its first. */
  lemma DecodedBytes(b: Bytes, k: nat)
    requires b != [] && DecodeRune(b).Some? && k < DecodeRune(b).value.1
    ensures Cont(b[k]) <==> k > 0
  {
  }

  /** White space at the end of encoded text is its last rune. */
  lemma SpaceTailOf(b: Bytes, c: char, w: nat)
    requires 1 <= w <= |b| + |EncodeRune(c)|
    ensures SpaceTail(b + EncodeRune(c), w) <==> w == |EncodeRune(c)| && IsSpace(c)
  {
    hide DecodeRune, EncodeRune, Cont;
    var n := |EncodeRune(c)|;
    var whole := b + EncodeRune(c);
    var tail := whole[|whole| - w..];
    if w == n {
      assert tail == EncodeRune(c) + [];
      DecodeEncodedRune(c, []);
    } else if DecodeRune(tail).Some? && DecodeRune(tail).value.1 == w {
      if w < n {
        assert tail[0] == EncodeRune(c)[n - w];
        RuneBytes(c, n - w);
        DecodedBytes(tail, 0);
      } else {
        assert tail[w - n] == EncodeRune(c)[0];
        RuneBytes(c, 0);
        DecodedBytes(tail, w - n);
      }
    }
  }

  lemma TailWidthOf(s: string, i: nat)
    requires 0 < i <= |s|
    ensures TailWidth(Encode(s[..i])) == if IsSpace(s[i - 1]) then |EncodeRune(s[i - 1])| else 0
    ensures Encode(s[..i]) == Encode(s[..i - 1]) + EncodeRune(s[i - 1])
  {
    hide EncodeRune, Encode, SpaceTail;
    var c := s[i - 1];
    assert s[..i] == s[..i - 1] + [c];
    EncodeConcat(s[..i - 1], [c]);
    EncodeOne(c);
    var b := Encode(s[..i]);
    forall w: nat | 1 <= w <= |b| ensures SpaceTail(b, w) <==> w == |EncodeRune(c)| && IsSpace(c) {
      SpaceTailOf(Encode(s[..i - 1]), c, w);
    }
    forall w: nat | w > |b| ensures !SpaceTail(b, w) {
      LongTail(b, w);
    }
  }

  lemma LongTail(b: Bytes, w: nat)
    requires w > |b|
    ensures !SpaceTail(b, w)
  {
  }

  lemma {:induction false} TrimRightOf(s: string, i: nat)
    requires i <= |s|
    ensures TrimRight(Encode(s[..i])) == Encode(s[..LastText(s, i)])
  {
    hide EncodeRune, TailWidth;
    if i == 0 {
      assert Encode(s[..0]) == [];
    } else {
      TailWidthOf(s, i);
      if IsSpace(s[i - 1]) {
        var b := Encode(s[..i]);
        assert b[..|b| - TailWidth(b)] == Encode(s[..i - 1]);
        TrimRightOf(s, i - 1);
      }
    }
  }

  lemma {:induction false} LastTextShift(s: string, a: nat, i: nat)
    requires a < |s| && !IsSpace(s[a]) && 1 <= i <= |s| - a
    ensures LastText(s[a..], i) + a == LastText(s, a + i) && LastText(s[a..], i) >= 1
    decreases i
  {
    if IsSpace(s[a..][i - 1]) {
      LastTextShift(s, a, i - 1);
    }
  }

  /** The text is what is left when both ends are trimmed one after the other. */
  lemma TrimEnds(s: string)
    ensures var t := s[FirstText(s, 0)..]; Trim(s) == t[..LastText(t, |t|)]
  {
    hide IsSpace;
    var a := FirstText(s, 0);
    if a < |s| {
      LastTextShift(s, a, |s| - a);
    }
  }

  /** Trimming the bytes of a text gives the bytes of the trimmed text. */
  lemma TrimBytesOf(s: string)
    ensures TrimBytes(Encode(s)) == Encode(Trim(s))
  {
    hide TrimLeft, TrimRight, Encode, Trim, FirstText, LastText;
    assert s[0..] == s;
    TrimLeftOf(s, 0);
    var t := s[FirstText(s, 0)..];
    assert t[..|t|] == t;
    TrimRightOf(t, |t|);
    TrimEnds(s);
  }
}

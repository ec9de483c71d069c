/** Kodik's rotated base64 (libs/kodikextract/decode.go) over section 4 of RFC 4648, as Go's StdEncoding
    decodes it: line breaks are skipped, padding is required, trailing bits are not checked.

    A source string is the runes Go ranges over; decoded text is bytes. */
module KodikDecode {
  import opened Optional

  type Byte = x: int | 0 <= x < 256
  type Sextet = x: int | 0 <= x < 64
  type Bytes = seq<Byte>

  // ----- the alphabet -----

  function Digit(v: Sextet): char {
    if v < 26 then 'A' + v as char
    else if v < 52 then 'a' + (v - 26) as char
    else if v < 62 then '0' + (v - 52) as char
    else if v == 62 then '+' else '/'
  }

  function Value(c: char): (v: Option<Sextet>)
    ensures v.Some? ==> Digit(v.value) == c
  {
    if 'A' <= c <= 'Z' then Some((c - 'A') as int)
    else if 'a' <= c <= 'z' then Some((c - 'a') as int + 26)
    else if '0' <= c <= '9' then Some((c - '0') as int + 52)
    else if c == '+' then Some(62) else if c == '/' then Some(63) else None
  }

  lemma DigitValue(v: Sextet)
    ensures Value(Digit(v)) == Some(v)
  {
  }

  predicate IsLetter(c: char) { 'A' <= c <= 'Z' || 'a' <= c <= 'z' }

  // ----- one quantum: three bytes, four digits -----

  function Group(a: Byte, b: Byte, c: Byte): string {
    [Digit(a / 4), Digit(a % 4 * 16 + b / 16), Digit(b % 16 * 4 + c / 64), Digit(c % 64)]
  }

  function Ungroup(p: Sextet, q: Sextet, r: Sextet, s: Sextet): Bytes {
    [p * 4 + q / 16, q % 16 * 16 + r / 4, r % 4 * 64 + s]
  }

  lemma UngroupGroup(a: Byte, b: Byte, c: Byte)
    ensures Ungroup(a / 4, a % 4 * 16 + b / 16, b % 16 * 4 + c / 64, c % 64) == [a, b, c]
  {
  }

  lemma GroupUngroup(p: Sextet, q: Sextet, r: Sextet, s: Sextet)
    ensures var u := Ungroup(p, q, r, s); Group(u[0], u[1], u[2]) == [Digit(p), Digit(q), Digit(r), Digit(s)]
  {
    hide Digit;
    var a, b, c := p * 4 + q / 16, q % 16 * 16 + r / 4, r % 4 * 64 + s;
    assert a / 4 == p && a % 4 == q / 16 && q / 16 * 16 + q % 16 == q;
    assert b / 16 == q % 16 && b % 16 == r / 4 && r / 4 * 4 + r % 4 == r;
    assert c / 64 == r % 4 && c % 64 == s;
  }

  // ----- encoding -----

  /** Without padding. */
  function EncodeRaw(x: Bytes): string
    decreases |x|
  {
    if |x| == 0 then ""
    else if |x| == 1 then Group(x[0], 0, 0)[..2]
    else if |x| == 2 then Group(x[0], x[1], 0)[..3]
    else Group(x[0], x[1], x[2]) + EncodeRaw(x[3..])
  }

  function Padding(length: nat): string {
    seq((4 - length % 4) % 4, _ => '=')
  }

  function Encode(x: Bytes): string { EncodeRaw(x) + Padding(|EncodeRaw(x)|) }

  // ----- decoding -----

  function StripBreaks(s: string): string {
    if s == "" then ""
    else if s[0] == '\n' || s[0] == '\r' then StripBreaks(s[1..])
    else [s[0]] + StripBreaks(s[1..])
  }

  function DecodeQuanta(s: string): Option<Bytes>
    decreases |s|
  {
    if s == "" then Some([])
    else if |s| < 4 || Value(s[0]).None? || Value(s[1]).None? then None
    else
      var p, q := Value(s[0]).value, Value(s[1]).value;
      if s[2] == '=' then
        if s[3] == '=' && |s| == 4 then Some(Ungroup(p, q, 0, 0)[..1]) else None
      else if Value(s[2]).None? then None
      else if s[3] == '=' then
        if |s| == 4 then Some(Ungroup(p, q, Value(s[2]).value, 0)[..2]) else None
      else if Value(s[3]).None? then None
      else
        var rest := DecodeQuanta(s[4..]);
        if rest.None? then None else Some(Ungroup(p, q, Value(s[2]).value, Value(s[3]).value) + rest.value)
  }

  function DecodeString(s: string): Option<Bytes> { DecodeQuanta(StripBreaks(s)) }

  // ----- rotation -----

  /** Position `i` of the 26 letters, turned by `n`. */
  function Turn(i: nat, n: nat): (r: nat)
    ensures r < 26
  {
    (i + n) % 26
  }

  lemma TurnLaws(i: nat, m: nat, n: nat)
    requires i < 26
    ensures Turn(Turn(i, m), n) == Turn(i, m + n)
    ensures Turn(i, n) == i <==> n % 26 == 0
  {
    FullTurns((i + m) / 26, (i + m) % 26 + n);
    FullTurns(n / 26, i + n % 26);
  }

  lemma FullTurns(turns: nat, x: nat)
    ensures (26 * turns + x) % 26 == x % 26
  {
  }

  function RotateChar(c: char, n: nat): char {
    if 'A' <= c <= 'Z' then 'A' + Turn((c - 'A') as int, n) as char
    else if 'a' <= c <= 'z' then 'a' + Turn((c - 'a') as int, n) as char
    else c
  }

  function Rotate(s: string, n: nat): (r: string)
    ensures |r| == |s| && forall i :: 0 <= i < |s| ==> r[i] == RotateChar(s[i], n)
  {
    seq(|s|, i requires 0 <= i < |s| => RotateChar(s[i], n))
  }

  lemma RotationsAdd(s: string, m: nat, n: nat)
    ensures Rotate(Rotate(s, m), n) == Rotate(s, m + n)
  {
    forall i | 0 <= i < |s| ensures Rotate(Rotate(s, m), n)[i] == Rotate(s, m + n)[i] {
      RotateCharAdds(s[i], m, n);
    }
  }

  lemma RotateCharAdds(c: char, m: nat, n: nat)
    ensures RotateChar(RotateChar(c, m), n) == RotateChar(c, m + n)
  {
    hide Turn;
    if 'A' <= c <= 'Z' {
      TurnLaws((c - 'A') as int, m, n);
    } else if 'a' <= c <= 'z' {
      TurnLaws((c - 'a') as int, m, n);
    }
  }

  lemma RotationPeriod(s: string, n: nat)
    requires n % 26 == 0
    ensures Rotate(s, n) == s
  {
    forall i | 0 <= i < |s| ensures Rotate(s, n)[i] == s[i] {
      RotateCharMoves(s[i], n);
    }
  }

  /** Letters move under every other rotation, digits and signs never. */
  lemma RotateCharMoves(c: char, n: nat)
    ensures RotateChar(c, n) == c <==> n % 26 == 0 || !IsLetter(c)
    ensures Value(RotateChar(c, n)).Some? == Value(c).Some?
    ensures (RotateChar(c, n) == '=') == (c == '=')
    ensures (RotateChar(c, n) in "\n\r") == (c in "\n\r")
  {
    hide Turn;
    if 'A' <= c <= 'Z' {
      TurnLaws((c - 'A') as int, 0, n);
    } else if 'a' <= c <= 'z' {
      TurnLaws((c - 'a') as int, 0, n);
    }
  }

  // ----- decoding inverts encoding -----

  lemma FullQuantum(a: Byte, b: Byte, c: Byte, rest: string)
    ensures var r := DecodeQuanta(rest);
            DecodeQuanta(Group(a, b, c) + rest) == if r.None? then None else Some([a, b, c] + r.value)
  {
    hide Digit, Value, DecodeQuanta;
    var s := Group(a, b, c) + rest;
    DigitValue(a / 4);
    DigitValue(a % 4 * 16 + b / 16);
    DigitValue(b % 16 * 4 + c / 64);
    DigitValue(c % 64);
    UngroupGroup(a, b, c);
    QuantumStep(s);
    assert s[4..] == rest;
  }

  lemma QuantumStep(s: string)
    requires |s| >= 4 && Value(s[0]).Some? && Value(s[1]).Some? && Value(s[2]).Some? && Value(s[3]).Some?
    ensures var rest := DecodeQuanta(s[4..]);
            DecodeQuanta(s) == if rest.None? then None
                               else Some(Ungroup(Value(s[0]).value, Value(s[1]).value, Value(s[2]).value, Value(s[3]).value)
                                         + rest.value)
  {
    hide Digit, Value, Ungroup;
    DigitsNeverPad();
  }

  lemma DigitsNeverPad()
    ensures Value('=').None? && Value('\n').None? && Value('\r').None?
    ensures forall v: Sextet :: Digit(v) != '='
  {
  }

  lemma EncodeStep(x: Bytes)
    requires |x| >= 3
    ensures Encode(x) == Group(x[0], x[1], x[2]) + Encode(x[3..])
  {
    var tail := EncodeRaw(x[3..]);
    assert |EncodeRaw(x)| == 4 + |tail|;
    assert Padding(4 + |tail|) == Padding(|tail|);
  }

  lemma {:induction false} DecodeEncoded(x: Bytes)
    ensures DecodeQuanta(Encode(x)) == Some(x)
    decreases |x|
  {
    hide Digit, Value;
    if |x| >= 3 {
      EncodeStep(x);
      DecodeEncoded(x[3..]);
      FullQuantum(x[0], x[1], x[2], Encode(x[3..]));
      assert x == [x[0], x[1], x[2]] + x[3..];
    } else if |x| > 0 {
      LastQuantum(x);
    } else {
      assert Encode(x) == "";
    }
  }

  lemma LastQuantum(x: Bytes)
    requires |x| == 1 || |x| == 2
    ensures DecodeQuanta(Encode(x)) == Some(x)
  {
    hide Digit, Value, DecodeQuanta;
    var b: Byte := if |x| == 2 then x[1] else 0;
    var p, q, r := x[0] / 4, x[0] % 4 * 16 + b / 16, b % 16 * 4;
    UngroupGroup(x[0], b, 0);
    ShortQuanta(p, q, r);
    if |x| == 1 {
      assert Encode(x) == [Digit(p), Digit(q), '=', '='];
      assert Ungroup(p, q, 0, 0)[0] == x[0];
      assert Ungroup(p, q, 0, 0)[..1] == x;
    } else {
      assert Encode(x) == [Digit(p), Digit(q), Digit(r), '='];
      assert Ungroup(p, q, r, 0)[..2] == x;
    }
  }

  lemma ShortQuanta(p: Sextet, q: Sextet, r: Sextet)
    ensures DecodeQuanta([Digit(p), Digit(q), '=', '=']) == Some(Ungroup(p, q, 0, 0)[..1])
    ensures DecodeQuanta([Digit(p), Digit(q), Digit(r), '=']) == Some(Ungroup(p, q, r, 0)[..2])
  {
    hide Digit, Value, Ungroup;
    DigitsNeverPad();
    DigitValue(p);
    DigitValue(q);
    DigitValue(r);
  }

  // ----- what a rotated encoding looks like -----

  predicate Clean(s: string) { forall i :: 0 <= i < |s| ==> Value(s[i]).Some? || s[i] == '=' }

  lemma {:induction false} EncodeClean(x: Bytes)
    ensures Clean(Encode(x)) && |Encode(x)| % 4 == 0
    decreases |x|
  {
    hide Value, Digit, Group, EncodeRaw, Encode, Padding;
    if |x| >= 3 {
      EncodeStep(x);
      EncodeClean(x[3..]);
      GroupClean(x[0], x[1], x[2]);
    } else {
      ShortClean(x);
    }
  }

  lemma GroupClean(a: Byte, b: Byte, c: Byte)
    ensures Clean(Group(a, b, c)) && |Group(a, b, c)| == 4
  {
    hide Value, Digit;
    DigitValue(a / 4);
    DigitValue(a % 4 * 16 + b / 16);
    DigitValue(b % 16 * 4 + c / 64);
    DigitValue(c % 64);
  }

  lemma ShortClean(x: Bytes)
    requires |x| < 3
    ensures Clean(Encode(x)) && |Encode(x)| % 4 == 0
  {
    hide Value, Digit, Group;
    if |x| > 0 {
      GroupClean(x[0], if |x| == 2 then x[1] else 0, 0);
    }
  }

  lemma RotateClean(s: string, n: nat)
    requires Clean(s)
    ensures Clean(Rotate(s, n))
  {
    forall i | 0 <= i < |s| ensures Value(Rotate(s, n)[i]).Some? || Rotate(s, n)[i] == '=' {
      RotateCharMoves(s[i], n);
    }
  }

  lemma {:induction false} CleanHasNoBreaks(s: string)
    requires Clean(s)
    ensures StripBreaks(s) == s
    decreases |s|
  {
    hide Value;
    DigitsNeverPad();
    if s != "" {
      CleanHasNoBreaks(s[1..]);
    }
  }

  // ----- DecodeSrc -----

  function Utf8Len(c: char): nat {
    if c as int < 0x80 then 1 else if c as int < 0x800 then 2 else if c as int < 0x1_0000 then 3 else 4
  }

  function ByteLen(s: string): nat { if s == "" then 0 else Utf8Len(s[0]) + ByteLen(s[1..]) }

  const MARKER: Bytes := [109, 112, 52, 58, 104, 108, 115, 58, 109, 97, 110, 105, 102, 101, 115, 116] // mp4:hls:manifest

  predicate MarkerAt(x: Bytes, i: nat) { i + |MARKER| <= |x| && x[i..i + |MARKER|] == MARKER }

  predicate HasMarker(x: Bytes) { exists i: nat | i <= |x| :: MarkerAt(x, i) }

  /** What one rotation decodes to: pad to a multiple of four bytes, then decode. */
  function Candidate(src: string, rot: nat): Option<Bytes> {
    var shifted := Rotate(src, rot);
    DecodeString(shifted + Padding(ByteLen(shifted)))
  }

  predicate Carries(src: string, rot: nat) { Candidate(src, rot).Some? && HasMarker(Candidate(src, rot).value) }

  /** The decoding of the first rotation that carries the marker, if one does. */
  ghost predicate FirstCarrier(src: string, result: Option<Bytes>) {
    if result.None? then forall rot: nat :: rot < 26 ==> !Carries(src, rot)
    else exists rot: nat :: rot < 26 && Carries(src, rot) && Candidate(src, rot) == result
                            && forall r: nat :: r < rot ==> !Carries(src, r)
  }

  /** What Kodik serves for a stream URL: its base64, padded or not, turned by `k`. */
  function Served(x: Bytes, k: nat, padded: bool): string { Rotate(if padded then Encode(x) else EncodeRaw(x), k) }

  lemma {:induction false} CleanByteLen(s: string)
    requires Clean(s)
    ensures ByteLen(s) == |s|
    decreases |s|
  {
    if s != "" {
      CleanByteLen(s[1..]);
    }
  }

  lemma RotateConcat(s: string, t: string, n: nat)
    ensures Rotate(s + t, n) == Rotate(s, n) + Rotate(t, n)
  {
  }

  /** Padded or not, a rotation tried on a served string decodes the encoding turned by the sum. */
  lemma CandidateIs(x: Bytes, k: nat, padded: bool, rot: nat)
    ensures Candidate(Served(x, k, padded), rot) == DecodeQuanta(Rotate(Encode(x), k + rot))
  {
    hide Value, Digit, RotateChar;
    var text := if padded then Encode(x) else EncodeRaw(x);
    var pad := Padding(|EncodeRaw(x)|);
    EncodeClean(x);
    assert Clean(text) by { assert forall i :: 0 <= i < |EncodeRaw(x)| ==> EncodeRaw(x)[i] == Encode(x)[i]; }
    RotationsAdd(text, k, rot);
    RotateClean(text, k + rot);
    CleanByteLen(Rotate(text, k + rot));
    PaddingStays(|EncodeRaw(x)|, k + rot);
    RotateConcat(EncodeRaw(x), pad, k + rot);
    var turned := Rotate(Encode(x), k + rot);
    assert Rotate(text, k + rot) + Padding(|text|) == turned by {
      if padded { assert Padding(|text|) == ""; assert turned + "" == turned; }
    }
    RotateClean(Encode(x), k + rot);
    CleanHasNoBreaks(turned);
  }

  lemma PaddingStays(length: nat, n: nat)
    ensures Rotate(Padding(length), n) == Padding(length)
  {
  }

  /** The complementary rotation recovers the URL exactly, for every URL and every shift. */
  lemma TrueRotation(x: Bytes, k: nat, padded: bool)
    ensures Candidate(Served(x, k, padded), (26 - k % 26) % 26) == Some(x)
  {
    hide Candidate, Served, Encode, DecodeQuanta, Rotate;
    var rot := (26 - k % 26) % 26;
    CandidateIs(x, k, padded, rot);
    RotationPeriod(Encode(x), k + rot);
    DecodeEncoded(x);
  }

  // ----- when the first carrier is the right one -----

  /** The first digit of a quantum is the top six bits of its first byte. */
  lemma {:induction false} DecodeHead(s: string, out: Bytes, j: nat)
    requires DecodeQuanta(s) == Some(out) && 3 * j < |out|
    ensures 4 * j < |s| && Value(s[4 * j]) == Some(out[3 * j] / 4)
    decreases j
  {
    hide Value, Digit;
    if j > 0 {
      DecodeHead(s[4..], out[3..], j - 1);
    }
  }

  lemma LettersMove(v: Sextet, n: nat)
    requires v < 52 && n % 26 != 0
    ensures Value(RotateChar(Digit(v), n)) != Some(v)
  {
    RotateCharMoves(Digit(v), n);
  }

  /** Turned the wrong way, the encoding of a text with the marker does not decode to that text. */
  lemma OtherRotationDiffers(x: Bytes, d: nat)
    requires HasMarker(x) && d % 26 != 0
    ensures DecodeQuanta(Rotate(Encode(x), d)) != Some(x)
  {
    hide Value, Digit, RotateChar, DecodeQuanta, EncodeRaw;
    var i: nat :| i <= |x| && MarkerAt(x, i);
    var j := (i + 2) / 3;
    assert x[3 * j] == MARKER[3 * j - i] by { assert x[i..i + |MARKER|][3 * j - i] == MARKER[3 * j - i]; }
    var y, z := Encode(x), Rotate(Encode(x), d);
    DecodeEncoded(x);
    DecodeHead(y, x, j);
    LettersMove(x[3 * j] / 4, d);
    assert Value(z[4 * j]) != Value(y[4 * j]);
    var out := DecodeQuanta(z);
    if out.Some? && 3 * j < |out.value| {
      DecodeHead(z, out.value, j);
    }
  }

  /** For every URL with the marker and every shift, `DecodeSrc` succeeds, and it returns the URL itself
      exactly when no smaller rotation happens to carry the marker. */
  lemma ServedRecovers(x: Bytes, k: nat, padded: bool, result: Option<Bytes>)
    requires HasMarker(x) && FirstCarrier(Served(x, k, padded), result)
    ensures result.Some?
    ensures result == Some(x) <==> forall rot: nat :: rot < (26 - k % 26) % 26 ==> !Carries(Served(x, k, padded), rot)
  {
    hide Candidate, Served, Encode, DecodeQuanta, Rotate, HasMarker;
    var src, right := Served(x, k, padded), (26 - k % 26) % 26;
    TrueRotation(x, k, padded);
    assert Carries(src, right);
    var rot: nat :| rot < 26 && Carries(src, rot) && Candidate(src, rot) == result && forall r: nat :: r < rot ==> !Carries(src, r);
    if rot < right {
      CandidateIs(x, k, padded, rot);
      OtherRotationDiffers(x, k + rot);
    }
  }

  // ----- a URL that is not recovered -----

  predicate Full(s: string) { |s| % 4 == 0 && forall i :: 0 <= i < |s| ==> Value(s[i]).Some? }

  lemma {:induction false} FullDecodes(s: string)
    requires Full(s)
    ensures var out := DecodeQuanta(s);
            out.Some? && |out.value| % 3 == 0 && EncodeRaw(out.value) == s
    decreases |s|
  {
    hide Value, Digit, Group, EncodeRaw, DecodeQuanta, Ungroup;
    EncodeRawStep([]);
    if s == "" {
      NoQuanta();
    } else {
      FullDecodes(s[4..]);
      var u := FirstQuantum(s);
      var rest := DecodeQuanta(s[4..]).value;
      var out := u + rest;
      assert out[3..] == rest && out[0] == u[0] && out[1] == u[1] && out[2] == u[2];
      EncodeRawStep(out);
      assert s == s[..4] + s[4..];
    }
  }

  lemma NoQuanta()
    ensures DecodeQuanta("") == Some([])
  {
  }

  /** Four digits in front are three bytes in front. */
  lemma FirstQuantum(s: string) returns (u: Bytes)
    requires Full(s) && s != ""
    ensures |u| == 3 && Group(u[0], u[1], u[2]) == s[..4]
    ensures var rest := DecodeQuanta(s[4..]); DecodeQuanta(s) == if rest.None? then None else Some(u + rest.value)
  {
    hide Value, Digit, Group, DecodeQuanta;
    var p, q, r, t := Value(s[0]).value, Value(s[1]).value, Value(s[2]).value, Value(s[3]).value;
    GroupUngroup(p, q, r, t);
    u := Ungroup(p, q, r, t);
    FullQuantum(u[0], u[1], u[2], s[4..]);
    assert u == [u[0], u[1], u[2]];
    assert s == s[..4] + s[4..] && s[..4] == [s[0], s[1], s[2], s[3]];
  }

  lemma {:induction false} EncodeRawStep(x: Bytes)
    ensures x == [] ==> EncodeRaw(x) == ""
    ensures |x| >= 3 ==> EncodeRaw(x) == Group(x[0], x[1], x[2]) + EncodeRaw(x[3..])
  {
  }

  lemma {:induction false} EncodeConcat(a: Bytes, b: Bytes)
    requires |a| % 3 == 0
    ensures EncodeRaw(a + b) == EncodeRaw(a) + EncodeRaw(b)
    decreases |a|
  {
    hide EncodeRaw, Group;
    EncodeRawStep(a);
    EncodeRawStep(a + b);
    if a == [] {
      assert a + b == b;
    } else {
      EncodeConcat(a[3..], b);
      assert (a + b)[3..] == a[3..] + b;
    }
  }

  lemma {:induction false} DecodeConcat(a: Bytes, t: string)
    requires |a| % 3 == 0 && DecodeQuanta(t).Some?
    ensures DecodeQuanta(EncodeRaw(a) + t) == Some(a + DecodeQuanta(t).value)
    decreases |a|
  {
    hide Group, DecodeQuanta, EncodeRaw;
    EncodeRawStep(a);
    if a == [] {
      assert EncodeRaw(a) + t == t && a + DecodeQuanta(t).value == DecodeQuanta(t).value;
    } else {
      var g := Group(a[0], a[1], a[2]);
      DecodeConcat(a[3..], t);
      FullQuantum(a[0], a[1], a[2], EncodeRaw(a[3..]) + t);
      assert EncodeRaw(a) + t == g + (EncodeRaw(a[3..]) + t);
      assert [a[0], a[1], a[2]] + (a[3..] + DecodeQuanta(t).value) == a + DecodeQuanta(t).value;
    }
  }

  lemma {:induction false} WholeQuantaAreFull(x: Bytes)
    requires |x| % 3 == 0
    ensures Full(EncodeRaw(x)) && Encode(x) == EncodeRaw(x)
    decreases |x|
  {
    hide Value, Digit;
    if x != [] {
      WholeQuantaAreFull(x[3..]);
      DigitValue(x[0] / 4);
      DigitValue(x[0] % 4 * 16 + x[1] / 16);
      DigitValue(x[1] % 16 * 4 + x[2] / 64);
      DigitValue(x[2] % 64);
      EncodeStep(x);
    }
  }

  lemma RotateFull(s: string, n: nat)
    requires Full(s)
    ensures Full(Rotate(s, n))
  {
    forall i | 0 <= i < |s| ensures Value(Rotate(s, n)[i]).Some? {
      RotateCharMoves(s[i], n);
    }
  }

  const SHIFT := 5

  /** A text whose first half is the marker's own base64 turned by five, decoded. */
  ghost function Decoy(): Bytes {
    var m := MARKER + [0, 0];
    var half := DecodeQuanta(Rotate(EncodeRaw(m), SHIFT));
    (if half.Some? then half.value else []) + m
  }

  lemma DecoyLength()
    ensures |MARKER + [0, 0]| == 18
  {
  }

  /** A text of whole quanta behind what its own turned encoding decodes to. */
  lemma TurnedInFront(m: Bytes, n: nat)
    requires |m| % 3 == 0
    ensures var e := EncodeRaw(m); var half := DecodeQuanta(Rotate(e, n));
            Full(e) && half.Some? && Encode(half.value + m) == Rotate(e, n) + e
  {
    hide DecodeQuanta, EncodeRaw, Rotate, Value, Digit, Encode, Full;
    var e := EncodeRaw(m);
    WholeQuantaAreFull(m);
    RotateFull(e, n);
    FullDecodes(Rotate(e, n));
    var w := DecodeQuanta(Rotate(e, n)).value;
    EncodeConcat(w, m);
    WholeTogether(w, m);
    WholeQuantaAreFull(w + m);
  }

  lemma WholeTogether(a: Bytes, b: Bytes)
    requires |a| % 3 == 0 && |b| % 3 == 0
    ensures |a + b| % 3 == 0
  {
  }

  lemma DecoyParts() returns (w: Bytes)
    ensures var m := MARKER + [0, 0]; var e := EncodeRaw(m);
            Full(e) && Decoy() == w + m && Encode(Decoy()) == Rotate(e, SHIFT) + e
  {
    hide DecodeQuanta, EncodeRaw, Rotate, Value, Digit, Encode, Full, MARKER;
    DecoyLength();
    TurnedInFront(MARKER + [0, 0], SHIFT);
    w := DecodeQuanta(Rotate(EncodeRaw(MARKER + [0, 0]), SHIFT)).value;
  }

  /** Turned by 16 more, the second half of the text shows the marker in front. */
  lemma DecoyCarries()
    ensures Carries(Served(Decoy(), SHIFT, true), 16)
  {
    hide DecodeQuanta, EncodeRaw, Rotate, Candidate, Value, Digit, Encode, Served, Decoy, HasMarker, MARKER;
    var w := DecoyParts();
    DecoyLength();
    var m := MARKER + [0, 0];
    var e := EncodeRaw(m);
    var tail := Rotate(e, 21);
    RotateFull(e, 21);
    FullDecodes(tail);
    RotateConcat(Rotate(e, SHIFT), e, 21);
    RotationsAdd(e, SHIFT, 21);
    RotationPeriod(e, 26);
    DecodeConcat(m, tail);
    CandidateIs(Decoy(), SHIFT, true, 16);
    MarkerInFront(m, DecodeQuanta(tail).value);
  }

  /** The marker alone does not identify the URL: served with a shift of five, this one comes back wrong. */
  lemma DecoyIsNotRecovered(result: Option<Bytes>)
    requires FirstCarrier(Served(Decoy(), SHIFT, true), result)
    ensures HasMarker(Decoy()) && result.Some? && result != Some(Decoy())
  {
    hide Carries, Served, Decoy, HasMarker, FirstCarrier, EncodeRaw, Encode, Rotate, Full;
    var w := DecoyParts();
    MarkerInside(w, MARKER + [0, 0]);
    DecoyCarries();
    ServedRecovers(Decoy(), SHIFT, true, result);
  }

  lemma MarkerInside(w: Bytes, m: Bytes)
    requires m == MARKER + [0, 0]
    ensures HasMarker(w + m)
  {
    assert (w + m)[|w|..|w| + |MARKER|] == MARKER;
    assert MarkerAt(w + m, |w|);
  }

  lemma MarkerInFront(m: Bytes, w: Bytes)
    requires m == MARKER + [0, 0]
    ensures HasMarker(m + w)
  {
    assert (m + w)[0..|MARKER|] == MARKER;
    assert MarkerAt(m + w, 0);
  }

  // ----- the same over bits and literals -----

  const UPPER := "ABCDEFGHIJKLMNOPQRSTUVWXYZ"
  const LOWER := "abcdefghijklmnopqrstuvwxyz"
  const TABLE := UPPER + LOWER + "0123456789+/" // table 1 of RFC 4648

  /** Bit `b` of a message, the highest bit of each byte first; zero behind its end. */
  function Bit(x: Bytes, b: nat): nat {
    if b / 8 < |x| then x[b / 8] / [128, 64, 32, 16, 8, 4, 2, 1][b % 8] % 2 else 0
  }

  /** The six bits from `b` on, as a number. */
  function SixBits(x: Bytes, b: nat): (v: Sextet) {
    BitIsBit(x);
    32 * Bit(x, b) + 16 * Bit(x, b + 1) + 8 * Bit(x, b + 2) + 4 * Bit(x, b + 3) + 2 * Bit(x, b + 4) + Bit(x, b + 5)
  }

  lemma BitIsBit(x: Bytes)
    ensures forall b: nat :: Bit(x, b) <= 1
  {
  }

  /** RFC 4648, section 4, without padding: one digit for every six bits begun. */
  function Base64(x: Bytes): string {
    TableDigits();
    seq((8 * |x| + 5) / 6, i requires 0 <= i => TABLE[SixBits(x, 6 * i)])
  }

  function Base64Padded(x: Bytes): string { Base64(x) + ["", "==", "="][|x| % 3] }

  lemma UpperAt(v: nat)
    requires v < 26
    ensures |UPPER| == 26 && UPPER[v] == 'A' + v as char
  {
    assert UPPER[v] as int == 'A' as int + v;
  }

  lemma LowerAt(v: nat)
    requires v < 26
    ensures |LOWER| == 26 && LOWER[v] == 'a' + v as char
  {
    assert LOWER[v] as int == 'a' as int + v;
  }

  lemma TableAt(v: Sextet)
    ensures |TABLE| == 64 && TABLE[v] == Digit(v)
  {
    hide UPPER, LOWER;
    UpperAt(0);
    LowerAt(0);
    if v < 26 {
      UpperAt(v);
    } else if v < 52 {
      LowerAt(v - 26);
    } else {
      assert TABLE[v] == "0123456789+/"[v - 52];
    }
  }

  lemma TableDigits()
    ensures |TABLE| == 64 && forall v: Sextet :: TABLE[v] == Digit(v)
  {
    hide TABLE, Digit;
    TableAt(0);
    forall v: Sextet ensures TABLE[v] == Digit(v) {
      TableAt(v);
    }
  }

  lemma HighBits(a: Byte)
    ensures 2 * (a / 128 % 2) + a / 64 % 2 == a / 64
    ensures 8 * (a / 128 % 2) + 4 * (a / 64 % 2) + 2 * (a / 32 % 2) + a / 16 % 2 == a / 16
    ensures 32 * (a / 128 % 2) + 16 * (a / 64 % 2) + 8 * (a / 32 % 2) + 4 * (a / 16 % 2) + 2 * (a / 8 % 2) + a / 4 % 2 == a / 4
  {
    Halves(a);
  }

  lemma LowBits(a: Byte)
    ensures 2 * (a / 2 % 2) + a % 2 == a % 4
    ensures 8 * (a / 8 % 2) + 4 * (a / 4 % 2) + 2 * (a / 2 % 2) + a % 2 == a % 16
    ensures 32 * (a / 32 % 2) + 16 * (a / 16 % 2) + 8 * (a / 8 % 2) + 4 * (a / 4 % 2) + 2 * (a / 2 % 2) + a % 2 == a % 64
  {
    Halves(a);
    assert a == 4 * (a / 4) + (2 * (a / 2 % 2) + a % 2);
    assert a == 16 * (a / 16) + (8 * (a / 8 % 2) + 4 * (a / 4 % 2) + 2 * (a / 2 % 2) + a % 2);
  }

  lemma Halves(a: Byte)
    ensures a == 2 * (a / 2) + a % 2 && a / 2 == 2 * (a / 4) + a / 2 % 2 && a / 4 == 2 * (a / 8) + a / 4 % 2
    ensures a / 8 == 2 * (a / 16) + a / 8 % 2 && a / 16 == 2 * (a / 32) + a / 16 % 2 && a / 32 == 2 * (a / 64) + a / 32 % 2
    ensures a / 64 == 2 * (a / 128) + a / 64 % 2 && a / 128 == a / 128 % 2
  {
    HalvesLow(a);
    HalvesMiddle(a);
    HalvesHigh(a);
  }

  lemma HalvesLow(a: Byte)
    ensures a == 2 * (a / 2) + a % 2 && a / 2 == 2 * (a / 4) + a / 2 % 2 && a / 4 == 2 * (a / 8) + a / 4 % 2
  {
  }

  lemma HalvesMiddle(a: Byte)
    ensures a / 8 == 2 * (a / 16) + a / 8 % 2 && a / 16 == 2 * (a / 32) + a / 16 % 2 && a / 32 == 2 * (a / 64) + a / 32 % 2
  {
  }

  lemma HalvesHigh(a: Byte)
    ensures a / 64 == 2 * (a / 128) + a / 64 % 2 && a / 128 == a / 128 % 2
  {
  }

  lemma ByteBits(x: Bytes, j: nat)
    ensures var a := ByteAt(x, j);
            && Bit(x, 8 * j) == a / 128 % 2 && Bit(x, 8 * j + 1) == a / 64 % 2
            && Bit(x, 8 * j + 2) == a / 32 % 2 && Bit(x, 8 * j + 3) == a / 16 % 2
            && Bit(x, 8 * j + 4) == a / 8 % 2 && Bit(x, 8 * j + 5) == a / 4 % 2
            && Bit(x, 8 * j + 6) == a / 2 % 2 && Bit(x, 8 * j + 7) == a % 2
  {
    hide Bit, ByteAt;
    BitAt(x, j, 0);
    BitAt(x, j, 1);
    BitAt(x, j, 2);
    BitAt(x, j, 3);
    BitAt(x, j, 4);
    BitAt(x, j, 5);
    BitAt(x, j, 6);
    BitAt(x, j, 7);
  }

  lemma BitAt(x: Bytes, j: nat, k: nat)
    requires k < 8
    ensures Bit(x, 8 * j + k) == ByteAt(x, j) / [128, 64, 32, 16, 8, 4, 2, 1][k] % 2
  {
    assert (8 * j + k) / 8 == j && (8 * j + k) % 8 == k;
  }

  function ByteAt(x: Bytes, j: nat): Byte { if j < |x| then x[j] else 0 }

  /** The first four digits are those of the first three bytes, missing ones read as zero. */
  lemma GroupBits(x: Bytes)
    ensures SixBits(x, 0) == ByteAt(x, 0) / 4 && SixBits(x, 18) == ByteAt(x, 2) % 64
    ensures SixBits(x, 6) == ByteAt(x, 0) % 4 * 16 + ByteAt(x, 1) / 16
    ensures SixBits(x, 12) == ByteAt(x, 1) % 16 * 4 + ByteAt(x, 2) / 64
  {
    hide SixBits, ByteAt;
    OuterBits(x);
    SecondBits(x);
    ThirdBits(x);
  }

  lemma OuterBits(x: Bytes)
    ensures SixBits(x, 0) == ByteAt(x, 0) / 4 && SixBits(x, 18) == ByteAt(x, 2) % 64
  {
    hide Bit, ByteAt;
    ByteBits(x, 0);
    ByteBits(x, 2);
    HighBits(ByteAt(x, 0));
    LowBits(ByteAt(x, 2));
  }

  lemma SecondBits(x: Bytes)
    ensures SixBits(x, 6) == ByteAt(x, 0) % 4 * 16 + ByteAt(x, 1) / 16
  {
    hide Bit, ByteAt;
    ByteBits(x, 0);
    ByteBits(x, 1);
    LowBits(ByteAt(x, 0));
    HighBits(ByteAt(x, 1));
  }

  lemma ThirdBits(x: Bytes)
    ensures SixBits(x, 12) == ByteAt(x, 1) % 16 * 4 + ByteAt(x, 2) / 64
  {
    hide Bit, ByteAt;
    ByteBits(x, 1);
    ByteBits(x, 2);
    LowBits(ByteAt(x, 1));
    HighBits(ByteAt(x, 2));
  }

  lemma ShiftBits(x: Bytes, b: nat)
    requires |x| >= 3
    ensures Bit(x, b + 24) == Bit(x[3..], b)
  {
    assert (b + 24) / 8 == b / 8 + 3 && (b + 24) % 8 == b % 8;
  }

  lemma {:induction false} Base64IsEncoding(x: Bytes)
    ensures Base64(x) == EncodeRaw(x)
    decreases |x|
  {
    hide Digit, SixBits;
    TableDigits();
    hide TABLE;
    GroupBits(x);
    if |x| < 3 {
      assert |Base64(x)| == |EncodeRaw(x)|;
    } else {
      var rest := Base64(x[3..]);
      Base64IsEncoding(x[3..]);
      assert |Base64(x)| == 4 + |rest|;
      forall i | 4 <= i < |Base64(x)| ensures Base64(x)[i] == rest[i - 4] {
        ShiftSix(x, 6 * (i - 4));
      }
      assert Base64(x)[..4] == Group(x[0], x[1], x[2]);
      assert Base64(x) == Base64(x)[..4] + rest;
    }
  }

  lemma ShiftSix(x: Bytes, b: nat)
    requires |x| >= 3
    ensures SixBits(x, b + 24) == SixBits(x[3..], b)
  {
    hide Bit;
    ShiftBits(x, b);
    ShiftBits(x, b + 1);
    ShiftBits(x, b + 2);
    ShiftBits(x, b + 3);
    ShiftBits(x, b + 4);
    ShiftBits(x, b + 5);
  }

  lemma {:induction false} Base64PaddedIsEncoding(x: Bytes)
    ensures Base64Padded(x) == Encode(x)
  {
    hide Base64, EncodeRaw;
    Base64IsEncoding(x);
    Base64Length(x);
  }

  lemma Base64Length(x: Bytes)
    ensures |Base64(x)| == (8 * |x| + 5) / 6
  {
  }

  /** Decoding inverts the encoding, line breaks allowed for. */
  lemma DecodeEncode(x: Bytes)
    ensures DecodeString(Base64Padded(x)) == Some(x)
  {
    hide DecodeQuanta, StripBreaks, Base64Padded, Encode;
    Base64PaddedIsEncoding(x);
    EncodeClean(x);
    CleanHasNoBreaks(Encode(x));
    DecodeEncoded(x);
  }

  // ----- rotation over the alphabets -----

  /** The letter `n` places further along, around the end. */
  function Ahead(alphabet: string, p: nat, n: nat): char
    requires |alphabet| == 26
  {
    alphabet[(p + n) % 26]
  }

  /** A letter moves `n` places along its alphabet; anything else stays. */
  ghost predicate Follows(c: char, d: char, n: nat) {
    && |UPPER| == |LOWER| == 26
    && (forall p :: 0 <= p < 26 && c == UPPER[p] ==> d == Ahead(UPPER, p, n))
    && (forall p :: 0 <= p < 26 && c == LOWER[p] ==> d == Ahead(LOWER, p, n))
    && (c !in UPPER && c !in LOWER ==> d == c)
  }

  ghost predicate Turned(s: string, t: string, n: nat) {
    |s| == |t| && forall i :: 0 <= i < |s| ==> Follows(s[i], t[i], n)
  }

  lemma InAlphabets(c: char)
    ensures c in UPPER <==> 'A' <= c <= 'Z'
    ensures c in LOWER <==> 'a' <= c <= 'z'
  {
    hide UPPER, LOWER;
    UpperAt(0);
    LowerAt(0);
    if 'A' <= c <= 'Z' {
      UpperAt((c - 'A') as nat);
    } else if 'a' <= c <= 'z' {
      LowerAt((c - 'a') as nat);
    }
    if c in UPPER {
      var p :| 0 <= p < |UPPER| && UPPER[p] == c;
      UpperAt(p);
    }
    if c in LOWER {
      var p :| 0 <= p < |LOWER| && LOWER[p] == c;
      LowerAt(p);
    }
  }

  lemma FollowsIsRotate(c: char, d: char, n: nat)
    ensures Follows(c, d, n) <==> d == RotateChar(c, n)
  {
    hide Turn, UPPER, LOWER;
    UpperAt(0);
    LowerAt(0);
    InAlphabets(c);
    forall p | 0 <= p < 26 ensures UPPER[p] == 'A' + p as char && LOWER[p] == 'a' + p as char {
      UpperAt(p);
      LowerAt(p);
    }
    if 'A' <= c <= 'Z' {
      var p: nat := (c - 'A') as nat;
      assert c == UPPER[p] && Ahead(UPPER, p, n) == UPPER[Turn(p, n)] by { TurnIs(p, n); }
    } else if 'a' <= c <= 'z' {
      var p: nat := (c - 'a') as nat;
      assert c == LOWER[p] && Ahead(LOWER, p, n) == LOWER[Turn(p, n)] by { TurnIs(p, n); }
    }
  }

  lemma TurnIs(i: nat, n: nat)
    ensures Turn(i, n) == (i + n) % 26
  {
  }

  lemma TurnedIsRotate(s: string, t: string, n: nat)
    ensures Turned(s, t, n) <==> t == Rotate(s, n)
  {
    hide Follows, RotateChar;
    forall i | 0 <= i < |s| && |s| == |t| ensures Follows(s[i], t[i], n) <==> t[i] == RotateChar(s[i], n) {
      FollowsIsRotate(s[i], t[i], n);
    }
  }

  // ----- decoding over bits -----

  /** Bit `b` of what the digits `v` stand for. */
  function DigitBit(v: seq<Sextet>, b: nat): nat {
    if b / 6 < |v| then v[b / 6] / [32, 16, 8, 4, 2, 1][b % 6] % 2 else 0
  }

  /** Digits, then at most two equals signs, a multiple of four characters in all. */
  ghost predicate Written(t: string, v: seq<Sextet>) {
    && |t| % 4 == 0 && |v| <= |t| <= |v| + 2 && |TABLE| == 64
    && (forall i :: 0 <= i < |v| ==> t[i] == TABLE[v[i]])
    && (forall i :: |v| <= i < |t| ==> t[i] == '=')
  }

  /** The bytes whose bits are the digits' first bits; trailing bits do not matter. */
  ghost predicate SpelledBy(t: string, y: Bytes, v: seq<Sextet>) {
    Written(t, v) && |y| == 6 * |v| / 8 && forall b: nat :: b < 8 * |y| ==> Bit(y, b) == DigitBit(v, b)
  }

  ghost predicate Spells(t: string, y: Bytes) { exists v: seq<Sextet> :: SpelledBy(t, y, v) }

  lemma SixUnique(v: Sextet, b0: nat, b1: nat, b2: nat, b3: nat, b4: nat, b5: nat)
    requires b0 <= 1 && b1 <= 1 && b2 <= 1 && b3 <= 1 && b4 <= 1 && b5 <= 1
    requires v == 32 * b0 + 16 * b1 + 8 * b2 + 4 * b3 + 2 * b4 + b5
    ensures v / 32 % 2 == b0 && v / 16 % 2 == b1 && v / 8 % 2 == b2 && v / 4 % 2 == b3 && v / 2 % 2 == b4 && v % 2 == b5
  {
    assert v / 32 == b0 && v / 16 == 2 * b0 + b1 && v / 8 == 4 * b0 + 2 * b1 + b2;
    assert v / 4 == 8 * b0 + 4 * b1 + 2 * b2 + b3 && v / 2 == 16 * b0 + 8 * b1 + 4 * b2 + 2 * b3 + b4;
  }

  lemma DigitBitAt(v: seq<Sextet>, j: nat, k: nat)
    requires j < |v| && k < 6
    ensures DigitBit(v, 6 * j + k) == v[j] / [32, 16, 8, 4, 2, 1][k] % 2
  {
    assert (6 * j + k) / 6 == j && (6 * j + k) % 6 == k;
  }

  lemma SextetBits(x: Bytes, v: seq<Sextet>, j: nat)
    requires j < |v| && SixBits(x, 6 * j) == v[j]
    ensures Bit(x, 6 * j) == DigitBit(v, 6 * j) && Bit(x, 6 * j + 1) == DigitBit(v, 6 * j + 1)
    ensures Bit(x, 6 * j + 2) == DigitBit(v, 6 * j + 2) && Bit(x, 6 * j + 3) == DigitBit(v, 6 * j + 3)
    ensures Bit(x, 6 * j + 4) == DigitBit(v, 6 * j + 4) && Bit(x, 6 * j + 5) == DigitBit(v, 6 * j + 5)
  {
    hide Bit, DigitBit, SixBits;
    DigitBits(v, j);
    SixBitsAre(x, 6 * j);
  }

  lemma SixBitsAre(x: Bytes, b: nat)
    ensures var v := SixBits(x, b);
            && Bit(x, b) == v / 32 % 2 && Bit(x, b + 1) == v / 16 % 2 && Bit(x, b + 2) == v / 8 % 2
            && Bit(x, b + 3) == v / 4 % 2 && Bit(x, b + 4) == v / 2 % 2 && Bit(x, b + 5) == v % 2
  {
    hide Bit;
    BitIsBit(x);
    SixUnique(SixBits(x, b), Bit(x, b), Bit(x, b + 1), Bit(x, b + 2), Bit(x, b + 3), Bit(x, b + 4), Bit(x, b + 5));
  }

  lemma DigitBits(v: seq<Sextet>, j: nat)
    requires j < |v|
    ensures DigitBit(v, 6 * j) == v[j] / 32 % 2 && DigitBit(v, 6 * j + 1) == v[j] / 16 % 2
    ensures DigitBit(v, 6 * j + 2) == v[j] / 8 % 2 && DigitBit(v, 6 * j + 3) == v[j] / 4 % 2
    ensures DigitBit(v, 6 * j + 4) == v[j] / 2 % 2 && DigitBit(v, 6 * j + 5) == v[j] % 2
  {
    hide DigitBit;
    DigitBitAt(v, j, 0);
    DigitBitAt(v, j, 1);
    DigitBitAt(v, j, 2);
    DigitBitAt(v, j, 3);
    DigitBitAt(v, j, 4);
    DigitBitAt(v, j, 5);
  }

  lemma QuantumBits(p: Sextet, q: Sextet, r: Sextet, s: Sextet, b: nat)
    requires b < 24
    ensures Bit(Ungroup(p, q, r, s), b) == DigitBit([p, q, r, s], b)
  {
    hide Bit, DigitBit, SixBits;
    var u, v := Ungroup(p, q, r, s), [p, q, r, s];
    GroupBits(u);
    UngroupDigits(p, q, r, s);
    var j := b / 6;
    assert SixBits(u, 6 * j) == v[j];
    SextetBits(u, v, j);
    assert b == 6 * j || b == 6 * j + 1 || b == 6 * j + 2 || b == 6 * j + 3 || b == 6 * j + 4 || b == 6 * j + 5;
  }

  lemma UngroupDigits(p: Sextet, q: Sextet, r: Sextet, s: Sextet)
    ensures var a, b, c := p * 4 + q / 16, q % 16 * 16 + r / 4, r % 4 * 64 + s;
            a / 4 == p && a % 4 * 16 + b / 16 == q && b % 16 * 4 + c / 64 == r && c % 64 == s
  {
  }

  /** What decodes is spelled out by its digits. */
  lemma {:induction false} DecodedIsSpelled(s: string, y: Bytes) returns (v: seq<Sextet>)
    requires DecodeQuanta(s) == Some(y)
    ensures SpelledBy(s, y, v)
    decreases |s|
  {
    hide Bit, DigitBit, Digit, Value, TABLE, Ungroup;
    TableDigits();
    if s == "" {
      v := [];
    } else if s[3] == '=' {
      v := LastSpelled(s, y);
    } else {
      var p, q, r, t := Value(s[0]).value, Value(s[1]).value, Value(s[2]).value, Value(s[3]).value;
      var u := Ungroup(p, q, r, t);
      UngroupLength(p, q, r, t);
      var rest := DecodedIsSpelled(s[4..], y[3..]);
      v := [p, q, r, t] + rest;
      FrontWritten(s, [p, q, r, t], rest);
      forall b: nat | b < 8 * |y| ensures Bit(y, b) == DigitBit(v, b) {
        FrontBits(y, v, p, q, r, t, b);
      }
    }
  }

  lemma UngroupLength(p: Sextet, q: Sextet, r: Sextet, t: Sextet)
    ensures |Ungroup(p, q, r, t)| == 3
  {
  }

  lemma FrontWritten(s: string, front: seq<Sextet>, rest: seq<Sextet>)
    requires |s| >= 4 && |front| == 4 && |TABLE| == 64 && Written(s[4..], rest)
    requires forall i :: 0 <= i < 4 ==> s[i] == TABLE[front[i]]
    ensures Written(s, front + rest)
  {
    hide TABLE;
    forall i | 4 <= i < |s| ensures s[i] == s[4..][i - 4] {
    }
  }

  lemma FrontBits(y: Bytes, v: seq<Sextet>, p: Sextet, q: Sextet, r: Sextet, t: Sextet, b: nat)
    requires |v| >= 4 && v[..4] == [p, q, r, t] && |y| >= 3 && y[..3] == Ungroup(p, q, r, t)
    requires b < 8 * |y| && (b >= 24 ==> Bit(y[3..], b - 24) == DigitBit(v[4..], b - 24))
    ensures Bit(y, b) == DigitBit(v, b)
  {
    hide Ungroup;
    if b < 24 {
      QuantumBits(p, q, r, t, b);
      assert y[b / 8] == y[..3][b / 8] && v[b / 6] == v[..4][b / 6];
    } else {
      hide Bit;
      ShiftBits(y, b - 24);
      assert b / 6 == (b - 24) / 6 + 4 && b % 6 == (b - 24) % 6;
    }
  }

  /** The last quantum, padded. */
  lemma LastSpelled(s: string, y: Bytes) returns (v: seq<Sextet>)
    requires DecodeQuanta(s) == Some(y) && |s| >= 4 && s[3] == '='
    ensures SpelledBy(s, y, v)
  {
    hide Bit, DigitBit, Digit, Value, TABLE, Ungroup;
    TableDigits();
    var p, q := Value(s[0]).value, Value(s[1]).value;
    var r: Sextet := if s[2] == '=' then 0 else Value(s[2]).value;
    UngroupLength(p, q, r, 0);
    v := if s[2] == '=' then [p, q] else [p, q, r];
    forall b: nat | b < 8 * |y| ensures Bit(y, b) == DigitBit(v, b) {
      QuantumBits(p, q, r, 0, b);
      BitsOfFront(Ungroup(p, q, r, 0), |y|, b);
      DigitsOfFront([p, q, r, 0], |v|, b);
      assert [p, q, r, 0][..|v|] == v;
    }
  }

  lemma BitsOfFront(x: Bytes, n: nat, b: nat)
    requires n <= |x| && b < 8 * n
    ensures Bit(x[..n], b) == Bit(x, b)
  {
  }

  lemma DigitsOfFront(v: seq<Sextet>, n: nat, b: nat)
    requires n <= |v| && b < 6 * n
    ensures DigitBit(v[..n], b) == DigitBit(v, b)
  {
  }

  /** What is written decodes to something. */
  lemma {:induction false} WrittenDecodes(s: string, v: seq<Sextet>)
    requires Written(s, v)
    ensures DecodeQuanta(s).Some?
    decreases |s|
  {
    hide Digit, Value, TABLE, Ungroup;
    TableDigits();
    forall i | 0 <= i < |v| ensures Value(s[i]) == Some(v[i]) {
      DigitValue(v[i]);
    }
    DigitsNeverPad();
    if |v| >= 4 {
      assert Written(s[4..], v[4..]);
      WrittenDecodes(s[4..], v[4..]);
      QuantumStep(s);
    }
  }

  lemma WrittenOnce(s: string, v: seq<Sextet>, w: seq<Sextet>)
    requires Written(s, v) && Written(s, w)
    ensures v == w
  {
    hide Digit, Value, TABLE;
    TableDigits();
    DigitsNeverPad();
    forall i | 0 <= i < |v| ensures Value(s[i]) == Some(v[i]) {
      DigitValue(v[i]);
    }
    forall i | 0 <= i < |w| ensures Value(s[i]) == Some(w[i]) {
      DigitValue(w[i]);
    }
    assert |v| == |s| || Value(s[|v|]).None?;
    assert |w| == |s| || Value(s[|w|]).None?;
  }

  lemma BitsDecide(x: Bytes, y: Bytes)
    requires |x| == |y| && forall b: nat :: b < 8 * |x| ==> Bit(x, b) == Bit(y, b)
    ensures x == y
  {
    hide Bit;
    forall j | 0 <= j < |x| ensures x[j] == y[j] {
      ByteBits(x, j);
      ByteBits(y, j);
      assert Bit(x, 8 * j) == Bit(y, 8 * j) && Bit(x, 8 * j + 1) == Bit(y, 8 * j + 1);
      assert Bit(x, 8 * j + 2) == Bit(y, 8 * j + 2) && Bit(x, 8 * j + 3) == Bit(y, 8 * j + 3);
      assert Bit(x, 8 * j + 4) == Bit(y, 8 * j + 4) && Bit(x, 8 * j + 5) == Bit(y, 8 * j + 5);
      assert Bit(x, 8 * j + 6) == Bit(y, 8 * j + 6) && Bit(x, 8 * j + 7) == Bit(y, 8 * j + 7);
      Halves(x[j]);
      Halves(y[j]);
    }
  }

  /** Decoding is reading the digits' bits, and accepts exactly what is written as RFC 4648 has it, trailing bits aside. */
  lemma DecodesIffSpelled(s: string, y: Bytes)
    ensures DecodeQuanta(s) == Some(y) <==> Spells(s, y)
  {
    hide Bit, DigitBit, DecodeQuanta, Written;
    if DecodeQuanta(s) == Some(y) {
      var v := DecodedIsSpelled(s, y);
    }
    if v: seq<Sextet> :| SpelledBy(s, y, v) {
      WrittenDecodes(s, v);
      var z := DecodeQuanta(s).value;
      var w := DecodedIsSpelled(s, z);
      WrittenOnce(s, v, w);
      BitsDecide(y, z);
    }
  }

  // ----- DecodeSrc over alphabets, bits and the marker's characters -----

  /** The text contains mp4:hls:manifest. */
  ghost predicate Marked(x: Bytes) { exists i: nat :: MarkedAt(x, i) }

  ghost predicate MarkedAt(x: Bytes, i: nat) {
    i + 16 <= |x| && forall j :: 0 <= j < 16 ==> x[i + j] as char == "mp4:hls:manifest"[j]
  }

  lemma MarkedIsMarker(x: Bytes)
    ensures HasMarker(x) <==> Marked(x)
  {
    forall i: nat ensures MarkedAt(x, i) <==> MarkerAt(x, i) {
      MarkedAtIs(x, i);
    }
    hide MarkedAt, MarkerAt;
    if i: nat :| MarkedAt(x, i) {
      MarkedInside(x, i);
    }
  }

  lemma MarkedInside(x: Bytes, i: nat)
    requires MarkedAt(x, i)
    ensures i <= |x|
  {
  }

  lemma MarkedAtIs(x: Bytes, i: nat)
    ensures MarkedAt(x, i) <==> MarkerAt(x, i)
  {
    MarkerText();
    hide MARKER;
    if i + 16 <= |x| {
      if MarkedAt(x, i) {
        assert x[i..i + 16] == MARKER;
      }
    }
  }

  lemma MarkerText()
    ensures |MARKER| == 16 && forall j :: 0 <= j < 16 ==> MARKER[j] as char == "mp4:hls:manifest"[j]
  {
  }

  /** Turned by `rot`, padded by its length in bytes and rid of line breaks, `src` spells `y`. */
  ghost predicate Yields(src: string, rot: nat, y: Bytes) {
    exists t: string :: Turned(src, t, rot) && Spells(StripBreaks(t + ["", "===", "==", "="][ByteLen(t) % 4]), y)
  }

  lemma CandidateYields(src: string, rot: nat, y: Bytes)
    ensures Candidate(src, rot) == Some(y) <==> Yields(src, rot, y)
  {
    hide Turned, Spells, StripBreaks, ByteLen;
    var t := Rotate(src, rot);
    TurnedIsRotate(src, t, rot);
    PaddingIs(ByteLen(t));
    DecodesIffSpelled(StripBreaks(t + Padding(ByteLen(t))), y);
    if other: string :| Turned(src, other, rot) && Spells(StripBreaks(other + ["", "===", "==", "="][ByteLen(other) % 4]), y) {
      TurnedIsRotate(src, other, rot);
    }
  }

  lemma PaddingIs(length: nat)
    ensures Padding(length) == ["", "===", "==", "="][length % 4]
  {
  }

  /** The first rotation of any source that spells a text with the marker decides, and that text is returned. */
  lemma FirstCarrierReads(src: string, result: Option<Bytes>)
    requires FirstCarrier(src, result)
    ensures result.None? ==> forall rot: nat, y :: rot < 26 && Yields(src, rot, y) ==> !Marked(y)
    ensures result.Some? ==> Marked(result.value)
                             && exists rot: nat :: rot < 26 && Yields(src, rot, result.value)
                                                   && forall r: nat, y :: r < rot && Yields(src, r, y) ==> !Marked(y)
  {
    hide Candidate, Yields, Marked, HasMarker;
    forall rot: nat, y | Yields(src, rot, y) ensures Candidate(src, rot) == Some(y) && (Carries(src, rot) <==> Marked(y)) {
      CandidateYields(src, rot, y);
      MarkedIsMarker(y);
    }
    if result.Some? {
      var rot: nat :| rot < 26 && Carries(src, rot) && Candidate(src, rot) == result && forall r: nat :: r < rot ==> !Carries(src, r);
      CandidateYields(src, rot, result.value);
      MarkedIsMarker(result.value);
      assert forall r: nat, y :: r < rot && Yields(src, r, y) ==> !Marked(y);
    }
  }

  /** What a source is: the base64 of a text, padded or not, its letters moved `k` places. */
  ghost predicate Serves(src: string, x: Bytes, k: nat) { Turned(Base64(x), src, k) || Turned(Base64Padded(x), src, k) }

  lemma ServesServed(src: string, x: Bytes, k: nat)
    requires Serves(src, x, k)
    ensures src == Served(x, k, true) || src == Served(x, k, false)
  {
    hide Turned, Base64, Base64Padded, EncodeRaw, Encode, Rotate;
    Base64IsEncoding(x);
    Base64PaddedIsEncoding(x);
    TurnedIsRotate(Base64(x), src, k);
    TurnedIsRotate(Base64Padded(x), src, k);
  }

  /** Every text with the marker, served under any shift, gives a result, and the text itself exactly when no smaller
      rotation happens to spell a text with the marker. */
  lemma RecoversExactly(src: string, x: Bytes, k: nat, result: Option<Bytes>)
    requires FirstCarrier(src, result) && Serves(src, x, k) && Marked(x)
    ensures result.Some?
    ensures result == Some(x) <==> forall rot: nat, y :: rot < (26 - k % 26) % 26 && Yields(src, rot, y) ==> !Marked(y)
  {
    hide FirstCarrier, Serves, Marked, Served, HasMarker, Candidate, Yields;
    ServesServed(src, x, k);
    MarkedIsMarker(x);
    var padded, right := src == Served(x, k, true), (26 - k % 26) % 26;
    assert src == Served(x, k, padded);
    ServedRecovers(x, k, padded, result);
    hide Carries;
    forall rot: nat, y | Yields(src, rot, y) && Marked(y) ensures Carries(src, rot) {
      CarriesYields(src, rot);
    }
    if rot: nat :| rot < right && Carries(src, rot) {
      CarriesYields(src, rot);
    }
  }

  lemma CarriesYields(src: string, rot: nat)
    ensures Carries(src, rot) <==> exists y :: Yields(src, rot, y) && Marked(y)
  {
    hide Candidate, Yields, Marked, HasMarker;
    forall y ensures Candidate(src, rot) == Some(y) <==> Yields(src, rot, y) {
      CandidateYields(src, rot, y);
    }
    forall y ensures HasMarker(y) <==> Marked(y) {
      MarkedIsMarker(y);
    }
    if Candidate(src, rot).Some? {
      assert Yields(src, rot, Candidate(src, rot).value);
    }
  }

  /** Line breaks are dropped and nothing else. */
  lemma {:induction false} StripBreaksSnoc(s: string, c: char)
    ensures StripBreaks("") == "" && StripBreaks(s + [c]) == StripBreaks(s) + if c == '\n' || c == '\r' then "" else [c]
    decreases |s|
  {
    if s == "" {
      assert s + [c] == [c];
    } else {
      StripBreaksSnoc(s[1..], c);
      assert (s + [c])[1..] == s[1..] + [c];
    }
  }

  lemma {:induction false} StripBreaksKeeps(s: string, i: nat)
    requires i < |s| && s[i] != '\n' && s[i] != '\r'
    ensures s[i] in StripBreaks(s)
    decreases |s|
  {
    if i > 0 {
      StripBreaksKeeps(s[1..], i - 1);
    }
  }

  /** A character that is neither a digit of the alphabet, an equals sign nor a line break spoils every rotation. */
  lemma ForeignSpoils(src: string, i: nat, rot: nat, y: Bytes)
    requires i < |src| && src[i] !in TABLE && src[i] !in "=\n\r"
    ensures !Yields(src, rot, y)
  {
    hide Bit, DigitBit, UPPER, LOWER, StripBreaks, ByteLen;
    if t: string :| Turned(src, t, rot) && Spells(StripBreaks(t + ["", "===", "==", "="][ByteLen(t) % 4]), y) {
      var padded := t + ["", "===", "==", "="][ByteLen(t) % 4];
      assert Follows(src[i], t[i], rot);
      assert padded[i] == src[i];
      StripBreaksKeeps(padded, i);
    }
  }

  lemma MarkerGroups()
    ensures Group(109, 112, 52) == "bXA0" && Group(58, 104, 108) == "Omhs" && Group(115, 58, 109) == "czpt"
    ensures Group(97, 110, 105) == "YW5p" && Group(102, 101, 115) == "ZmVz" && Group(116, 0, 0)[..2] == "dA"
  {
  }

  lemma EncodeTwo(x: Bytes)
    requires |x| >= 6
    ensures EncodeRaw(x) == Group(x[0], x[1], x[2]) + Group(x[3], x[4], x[5]) + EncodeRaw(x[6..])
  {
    hide Group, EncodeRaw;
    EncodeRawStep(x);
    EncodeRawStep(x[3..]);
    assert x[3..][3..] == x[6..];
  }

  /** The marker's own base64. */
  lemma MarkerEncoded()
    ensures Base64Padded(MARKER) == "bXA0OmhsczptYW5pZmVzdA=="
  {
    hide Group, EncodeRaw, Digit, Base64;
    Base64IsEncoding(MARKER);
    MarkerGroups();
    EncodeTwo(MARKER);
    EncodeTwo(MARKER[6..]);
    EncodeRawStep(MARKER[12..]);
    assert MARKER[6..][6..] == MARKER[12..] && MARKER[12..][3..] == [116];
    assert EncodeRaw([116]) == "dA" by { LastDigits(116); }
    assert Base64(MARKER) == "bXA0" + "Omhs" + "czpt" + "YW5p" + "ZmVz" + "dA";
  }

  lemma LastDigits(a: Byte)
    ensures EncodeRaw([a]) == Group(a, 0, 0)[..2]
  {
  }

  method DecodeSrc(src: string) returns (result: Option<Bytes>)
    ensures FirstCarrier(src, result)
    ensures result.None? ==> forall rot: nat, y :: rot < 26 && Yields(src, rot, y) ==> !Marked(y)
    ensures result.Some? ==> Marked(result.value)
                             && exists rot: nat :: rot < 26 && Yields(src, rot, result.value)
                                                   && forall r: nat, y :: r < rot && Yields(src, r, y) ==> !Marked(y)
    ensures forall x, k: nat :: Serves(src, x, k) && Marked(x) ==>
              result.Some?
              && (result == Some(x) <==> forall rot: nat, y :: rot < (26 - k % 26) % 26 && Yields(src, rot, y) ==> !Marked(y))
  {
    hide Yields, Marked, Serves, HasMarker;
    result := None;
    for rot := 0 to 26
      invariant result.None? && forall r: nat :: r < rot ==> !Carries(src, r)
    {
      var shifted := Rotate(src, rot);
      var length := ByteLen(shifted);
      if (4 - length % 4) % 4 > 0 {
        shifted := shifted + Padding(length);
      } else {
        assert shifted + Padding(length) == shifted;
      }
      var decoded := DecodeString(shifted);
      if decoded.Some? && HasMarker(decoded.value) {
        assert Carries(src, rot);
        result := decoded;
        break;
      }
    }
    FirstCarrierReads(src, result);
    forall x, k: nat | Serves(src, x, k) && Marked(x)
      ensures result.Some?
      ensures result == Some(x) <==> forall rot: nat, y :: rot < (26 - k % 26) % 26 && Yields(src, rot, y) ==> !Marked(y)
    {
      RecoversExactly(src, x, k, result);
    }
  }
}

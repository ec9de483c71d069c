/** Percent-encoding as the playlist rewriter uses it (net/url's QueryEscape and PathEscape; section 2.1 of
    RFC 3986), over the UTF-8 form of a text. */
module UrlEscape {
  import opened Optional
  import opened Text

  type Byte = b: int | 0 <= b < 256

  function Utf8(c: char): seq<Byte> {
    var n := c as int;
    if n < 0x80 then [n]
    else if n < 0x800 then [0xC0 + n / 0x40, 0x80 + n % 0x40]
    else if n < 0x1_0000 then [0xE0 + n / 0x1000, 0x80 + n / 0x40 % 0x40, 0x80 + n % 0x40]
    else [0xF0 + n / 0x4_0000, 0x80 + n / 0x1000 % 0x40, 0x80 + n / 0x40 % 0x40, 0x80 + n % 0x40]
  }

  function Utf8All(s: string): seq<Byte> { if s == "" then [] else Utf8(s[0]) + Utf8All(s[1..]) }

  function HexDigit(n: int): char
    requires 0 <= n < 16
  {
    if n < 10 then '0' + n as char else 'A' + (n - 10) as char
  }

  function HexValue(c: char): Option<int> {
    if '0' <= c <= '9' then Some(c as int - '0' as int)
    else if 'A' <= c <= 'F' then Some(c as int - 'A' as int + 10)
    else if 'a' <= c <= 'f' then Some(c as int - 'a' as int + 10)
    else None
  }

  function Percent(b: Byte): string { ['%', HexDigit(b / 16), HexDigit(b % 16)] }

  function PercentAll(bytes: seq<Byte>): string {
    if bytes == [] then "" else Percent(bytes[0]) + PercentAll(bytes[1..])
  }

  predicate Unreserved(c: char) {
    'a' <= c <= 'z' || 'A' <= c <= 'Z' || '0' <= c <= '9' || c in "-_.~"
  }

  function QueryChar(c: char): string {
    if Unreserved(c) then [c] else if c == ' ' then "+" else PercentAll(Utf8(c))
  }

  /** A byte of a path segment, given as the character of its value. */
  function PathChar(c: char): string {
    if Unreserved(c) || c in "$&+:=@" then [c] else Percent(c as int % 256)
  }

  function Escape(s: string, code: char -> string): string
    decreases |s|
  {
    if s == "" then "" else code(s[0]) + Escape(s[1..], code)
  }

  function QueryEscape(s: string): string { Escape(s, QueryChar) }

  /** Each byte as the character of its value. */
  function AsText(bytes: seq<Byte>): (s: string)
    ensures |s| == |bytes| && forall i :: 0 <= i < |s| ==> s[i] as int == bytes[i]
  {
    seq(|bytes|, i requires 0 <= i < |bytes| => bytes[i] as char)
  }

  function PathEscape(bytes: seq<Byte>): string { Escape(AsText(bytes), PathChar) }

  // ----- reading it back -----

  /** The bytes a query component stands for; None for a malformed escape. */
  function QueryUnescape(s: string): Option<seq<Byte>>
    decreases |s|
  {
    if s == "" then Some([])
    else if s[0] == '%' then
      if |s| < 3 || HexValue(s[1]).None? || HexValue(s[2]).None? then None
      else Prefixed([HexValue(s[1]).value * 16 + HexValue(s[2]).value], QueryUnescape(s[3..]))
    else Prefixed(if s[0] == '+' then [0x20] else Utf8(s[0]), QueryUnescape(s[1..]))
  }

  /** The bytes a path stands for; None for a malformed escape. */
  function PathUnescape(s: string): Option<seq<Byte>>
    decreases |s|
  {
    if s == "" then Some([])
    else if s[0] == '%' then
      if |s| < 3 || HexValue(s[1]).None? || HexValue(s[2]).None? then None
      else Prefixed([HexValue(s[1]).value * 16 + HexValue(s[2]).value], PathUnescape(s[3..]))
    else Prefixed(Utf8(s[0]), PathUnescape(s[1..]))
  }

  function Prefixed(bytes: seq<Byte>, rest: Option<seq<Byte>>): Option<seq<Byte>> {
    if rest.Some? then Some(bytes + rest.value) else None
  }

  lemma HexRoundTrip(n: int)
    requires 0 <= n < 16
    ensures HexValue(HexDigit(n)) == Some(n)
  {
  }

  lemma {:induction false} UnescapeByte(b: Byte, rest: string)
    ensures QueryUnescape(Percent(b) + rest) == Prefixed([b], QueryUnescape(rest))
  {
    hide HexValue, HexDigit;
    HexRoundTrip(b / 16);
    HexRoundTrip(b % 16);
    var text := Percent(b) + rest;
    assert text[3..] == rest;
  }

  lemma {:induction false} UnescapePercent(bytes: seq<Byte>, rest: string)
    ensures QueryUnescape(PercentAll(bytes) + rest) == Prefixed(bytes, QueryUnescape(rest))
    decreases |bytes|
  {
    hide QueryUnescape, Percent;
    if bytes == [] {
      assert PercentAll(bytes) + rest == rest;
      assert forall more: seq<Byte> :: bytes + more == more;
    } else {
      var tail := PercentAll(bytes[1..]) + rest;
      UnescapePercent(bytes[1..], rest);
      assert PercentAll(bytes) + rest == Percent(bytes[0]) + tail;
      UnescapeByte(bytes[0], tail);
      assert forall more: seq<Byte> :: [bytes[0]] + (bytes[1..] + more) == bytes + more;
    }
  }

  lemma {:induction false} UnescapeChar(c: char, rest: string)
    ensures QueryUnescape(QueryChar(c) + rest) == Prefixed(Utf8(c), QueryUnescape(rest))
  {
    if Unreserved(c) || c == ' ' {
      var text := QueryChar(c) + rest;
      assert text[1..] == rest;
      assert Utf8(' ') == [0x20];
    } else {
      UnescapePercent(Utf8(c), rest);
    }
  }

  /** A query component carries its text. */
  lemma {:induction false} QueryRoundTrip(s: string)
    ensures QueryUnescape(QueryEscape(s)) == Some(Utf8All(s))
    decreases |s|
  {
    hide Utf8, QueryChar, QueryUnescape;
    if s == "" {
      UnescapeEmpty();
    } else {
      QueryRoundTrip(s[1..]);
      UnescapeChar(s[0], QueryEscape(s[1..]));
    }
  }

  lemma {:induction false} UnescapeEmpty()
    ensures QueryUnescape("") == Some([]) && PathUnescape("") == Some([])
  {
  }

  lemma {:induction false} UnescapePercentByte(b: Byte, rest: string)
    ensures PathUnescape(Percent(b) + rest) == Prefixed([b], PathUnescape(rest))
  {
    hide HexValue, HexDigit;
    var text := Percent(b) + rest;
    HexRoundTrip(b / 16);
    HexRoundTrip(b % 16);
    assert text[3..] == rest;
  }

  lemma {:induction false} UnescapeKept(c: char, rest: string)
    requires c != '%'
    ensures PathUnescape([c] + rest) == Prefixed(Utf8(c), PathUnescape(rest))
  {
    hide HexValue, Utf8;
    assert ([c] + rest)[1..] == rest;
  }

  lemma PathCharAscii(c: char)
    requires PathChar(c) == [c]
    ensures c != '%' && c as int < 0x80
  {
  }

  lemma {:induction false} UnescapePathByte(c: char, rest: string)
    requires c as int < 256
    ensures PathUnescape(PathChar(c) + rest) == Prefixed([c as int], PathUnescape(rest))
  {
    if PathChar(c) == [c] {
      hide PathUnescape;
      PathCharAscii(c);
      UnescapeKept(c, rest);
    } else {
      hide PathUnescape, Percent;
      UnescapePercentByte(c as int, rest);
    }
  }

  /** A path segment carries its bytes. */
  lemma {:induction false} PathRoundTrip(bytes: seq<Byte>)
    ensures PathUnescape(PathEscape(bytes)) == Some(bytes)
    decreases |bytes|
  {
    hide PathChar, PathUnescape;
    if bytes == [] {
      UnescapeEmpty();
    } else {
      var text := AsText(bytes);
      assert text[1..] == AsText(bytes[1..]);
      PathRoundTrip(bytes[1..]);
      UnescapePathByte(text[0], PathEscape(bytes[1..]));
      assert [bytes[0]] + bytes[1..] == bytes;
    }
  }

  /** A text without escapes in front of a path stands for its own bytes. */
  lemma {:induction false} UnescapePlain(s: string, rest: string)
    requires forall i :: 0 <= i < |s| ==> s[i] != '%' && s[i] as int < 0x80
    ensures PathUnescape(s + rest) == Prefixed(Codes(s), PathUnescape(rest))
    decreases |s|
  {
    hide PathUnescape;
    if s == "" {
      assert s + rest == rest;
      assert forall more: seq<Byte> :: Codes(s) + more == more;
    } else {
      UnescapePlain(s[1..], rest);
      assert s + rest == [s[0]] + (s[1..] + rest);
      UnescapeKept(s[0], s[1..] + rest);
      assert Codes(s) == [s[0] as int] + Codes(s[1..]);
      assert forall more: seq<Byte> :: [s[0] as int] + (Codes(s[1..]) + more) == Codes(s) + more;
    }
  }

  /** The codes of an ASCII text. */
  function Codes(s: string): (bytes: seq<Byte>)
    requires forall i :: 0 <= i < |s| ==> s[i] as int < 0x80
    ensures |bytes| == |s|
  {
    seq(|s|, i requires 0 <= i < |s| => s[i] as int)
  }

  // ----- what the encoded text looks like -----

  /** Printable ASCII without the double quote: no space, no line end. */
  predicate CleanChar(c: char) { '!' <= c <= '~' && c != '"' }

  predicate Clean(s: string) { forall k :: 0 <= k < |s| ==> CleanChar(s[k]) }

  /** One escape is the character itself, a plus sign, or percent-encoded bytes. */
  lemma {:induction false} PercentShape(bytes: seq<Byte>)
    ensures forall k :: 0 <= k < |PercentAll(bytes)| ==>
              var c := PercentAll(bytes)[k]; c == '%' || '0' <= c <= '9' || 'A' <= c <= 'F'
    ensures bytes != [] ==> PercentAll(bytes) != "" && PercentAll(bytes)[0] == '%'
    decreases |bytes|
  {
    if bytes != [] {
      PercentShape(bytes[1..]);
    }
  }

  /** What the two encodings share: clean text; letters, digits and dots kept; everything else kept or marked. */
  predicate Faithful(c: char, coded: string) {
    && Clean(coded) && coded != ""
    && (coded == [c] || coded == "+" || (coded[0] == '%' && 'm' !in coded))
    && (Unreserved(c) ==> coded == [c])
  }

  lemma CharsFaithful(c: char)
    ensures Faithful(c, QueryChar(c)) && Faithful(c, PathChar(c)) && '&' !in QueryChar(c)
  {
    PercentShape(Utf8(c));
  }

  ghost predicate FaithfulCode(code: char -> string) { forall c :: Faithful(c, code(c)) }

  lemma {:induction false} EscapeClean(s: string, code: char -> string)
    requires FaithfulCode(code)
    ensures Clean(Escape(s, code))
    decreases |s|
  {
    if s != "" {
      EscapeClean(s[1..], code);
      assert Faithful(s[0], code(s[0]));
    }
  }

  lemma {:induction false} QueryNoAmp(s: string)
    ensures '&' !in QueryEscape(s)
    decreases |s|
  {
    hide QueryChar;
    if s != "" {
      QueryNoAmp(s[1..]);
      CharsFaithful(s[0]);
    }
  }

  /** An escaped segment stays one segment, and opens no query and no fragment. */
  lemma {:induction false} PathNoSlash(bytes: seq<Byte>)
    ensures var leaf := PathEscape(bytes); '/' !in leaf && '?' !in leaf && '#' !in leaf
    decreases |bytes|
  {
    hide PathChar;
    if bytes != [] {
      var text := AsText(bytes);
      assert text[1..] == AsText(bytes[1..]);
      PathNoSlash(bytes[1..]);
      PathCharNoSlash(text[0]);
    }
  }

  lemma PathCharNoSlash(c: char)
    ensures '/' !in PathChar(c) && '?' !in PathChar(c) && '#' !in PathChar(c)
  {
  }

  predicate Plain(pat: string) { forall k :: 0 <= k < |pat| ==> Unreserved(pat[k]) }

  /** Unreserved text at the front of an encoded text was there before. */
  lemma {:induction false} EscapeFront(s: string, code: char -> string, pat: string)
    requires FaithfulCode(code) && Plain(pat)
    ensures pat <= Escape(s, code) <==> pat <= s
    decreases |s|
  {
    if pat != "" && s != "" {
      var coded := code(s[0]);
      assert Faithful(s[0], coded) && Unreserved(pat[0]);
      var whole, rest := Escape(s, code), Escape(s[1..], code);
      EscapeFront(s[1..], code, pat[1..]);
      assert pat == [pat[0]] + pat[1..] && s == [s[0]] + s[1..];
      if coded == [s[0]] {
        assert whole == [s[0]] + rest;
        assert whole[1..] == rest;
        PrefixStep(pat, whole);
        PrefixStep(pat, s);
      } else {
        assert whole[0] == coded[0];
      }
    }
  }

  lemma PrefixStep(pat: string, s: string)
    requires pat != "" && s != ""
    ensures pat <= s <==> pat[0] == s[0] && pat[1..] <= s[1..]
  {
    if pat[0] == s[0] && pat[1..] <= s[1..] {
      assert pat == [pat[0]] + pat[1..] && s == [s[0]] + s[1..];
    }
  }

  /** Unreserved text that starts with an 'm' appears in an encoded text exactly when it was there before. */
  lemma {:induction false} EscapeContains(s: string, code: char -> string, pat: string)
    requires FaithfulCode(code) && Plain(pat) && pat != "" && pat[0] == 'm'
    ensures Contains(Escape(s, code), pat) == Contains(s, pat)
    decreases |s|
  {
    if s != "" {
      hide Contains, IndexOf, OccursAt, Plain;
      var coded, rest := code(s[0]), Escape(s[1..], code);
      assert Faithful(s[0], coded);
      EscapeContains(s[1..], code, pat);
      EscapeFront(s, code, pat);
      ContainsStep(s, pat);
      if coded == [s[0]] {
        assert (coded + rest)[1..] == rest;
        ContainsStep(coded + rest, pat);
      } else {
        ContainsLater(coded, rest, pat);
      }
    }
  }

  lemma {:induction false} ContainsStep(s: string, pat: string)
    requires s != ""
    ensures Contains(s, pat) == (pat <= s || Contains(s[1..], pat))
  {
  }

  /** Text without the first character of `pat` hides nothing behind it. */
  lemma {:induction false} ContainsLater(a: string, b: string, pat: string)
    requires pat != "" && pat[0] !in a
    ensures Contains(a + b, pat) == Contains(b, pat)
    decreases |a|
  {
    if a == "" {
      assert a + b == b;
    } else {
      hide Contains, IndexOf;
      assert (a + b)[1..] == a[1..] + b;
      ContainsLater(a[1..], b, pat);
      ContainsStep(a + b, pat);
      assert (a + b)[0] == a[0];
    }
  }

  // ----- the same over numbers and alphabets -----

  /** UTF-8 (RFC 3629, section 3), read back: which lead byte, how many continuation bytes, and the code point. */
  lemma Utf8Reads(c: char)
    ensures var n: int, b: seq<int> := c as int, Utf8(c);
            && (forall i :: 1 <= i < |b| ==> 0x80 <= b[i] <= 0xBF)
            && (n < 0x80 ==> b == [n])
            && (0x80 <= n < 0x800 ==> |b| == 2 && 0xC2 <= b[0] <= 0xDF && n == (b[0] - 0xC0) * 64 + (b[1] - 0x80))
            && (0x800 <= n < 0x1_0000 ==>
                  |b| == 3 && 0xE0 <= b[0] <= 0xEF && n == (b[0] - 0xE0) * 4096 + (b[1] - 0x80) * 64 + (b[2] - 0x80))
            && (0x1_0000 <= n ==>
                  |b| == 4 && 0xF0 <= b[0] <= 0xF4
                  && n == (b[0] - 0xF0) * 262144 + (b[1] - 0x80) * 4096 + (b[2] - 0x80) * 64 + (b[3] - 0x80))
  {
    Base64Digits(c as int);
  }

  /** A number by its digits to the base 64. */
  lemma Base64Digits(n: nat)
    ensures n == n / 64 * 64 + n % 64
    ensures n / 64 == n / 4096 * 64 + n / 64 % 64
    ensures n / 4096 == n / 262144 * 64 + n / 4096 % 64
  {
  }

  /** Two upper-case hexadecimal digits. */
  lemma PercentReads(b: Byte)
    ensures Percent(b) == ['%', "0123456789ABCDEF"[b / 16], "0123456789ABCDEF"[b % 16]]
  {
    HexDigitReads(b / 16);
    HexDigitReads(b % 16);
  }

  lemma HexDigitReads(n: int)
    requires 0 <= n < 16
    ensures HexDigit(n) == "0123456789ABCDEF"[n]
  {
  }

  /** Read in either case. */
  lemma HexValueReads(c: char, n: int)
    ensures HexValue(c) == Some(n) <==> 0 <= n < 16 && ("0123456789ABCDEF"[n] == c || "0123456789abcdef"[n] == c)
    ensures HexValue(c).Some? <==> c in "0123456789abcdefABCDEF"
  {
    if 0 <= n < 16 {
      HexDigitReads(n);
      LowerReads(c, n);
    }
    HexLetters(c);
  }

  lemma LowerReads(c: char, n: int)
    requires 0 <= n < 16
    ensures "0123456789abcdef"[n] == if n < 10 then '0' + n as char else 'a' + (n - 10) as char
  {
  }

  lemma HexLetters(c: char)
    ensures HexValue(c).Some? <==> c in "0123456789abcdefABCDEF"
  {
  }

  /** The unreserved characters of section 2.3 of RFC 3986. */
  lemma UnreservedIff(c: char)
    ensures Unreserved(c) <==>
            c in "abcdefghijklmnopqrstuvwxyz" || c in "ABCDEFGHIJKLMNOPQRSTUVWXYZ" || c in "0123456789-_.~"
  {
  }

  /** In a query they are kept and a space becomes a plus; in a path segment six more are kept. */
  lemma KeptAsIs(c: char)
    ensures c != ' ' ==> (QueryChar(c) == [c] <==> Unreserved(c))
    ensures QueryChar(' ') == "+" && QueryUnescape("+") == Some([0x20]) && PathUnescape("+") == Some([0x2B])
    ensures c as int < 256 ==> (PathChar(c) == [c] <==> Unreserved(c) || c in "$&+:=@")
  {
    hide Unreserved;
    assert !Unreserved(' ') by { UnreservedIff(' '); }
    PlusReads();
  }

  lemma PlusReads()
    ensures QueryUnescape("+") == Some([0x20]) && PathUnescape("+") == Some([0x2B])
  {
    assert "+"[1..] == "" && Utf8('+') == [0x2B];
    assert [0x20] + [] == [0x20] && Utf8('+') + [] == Utf8('+');
    assert QueryUnescape("") == Some([]) && PathUnescape("") == Some([]);
  }

  predicate Hex(c: char) { c in "0123456789abcdefABCDEF" }

  /** Every percent sign has two hexadecimal digits behind it. */
  predicate WellEscaped(s: string) {
    forall k :: 0 <= k < |s| && s[k] == '%' ==> k + 2 < |s| && Hex(s[k + 1]) && Hex(s[k + 2])
  }

  lemma {:induction false} UnescapesIff(s: string)
    ensures PathUnescape(s).Some? <==> WellEscaped(s)
    ensures QueryUnescape(s).Some? <==> WellEscaped(s)
    decreases |s|
  {
    hide Utf8, HexValue;
    if s != "" {
      forall c ensures HexValue(c).Some? <==> Hex(c) {
        HexLetters(c);
      }
      var n := if s[0] == '%' then 3 else 1;
      if n <= |s| {
        UnescapesIff(s[n..]);
        WellEscapedStep(s, n);
      }
    }
  }

  lemma WellEscapedStep(s: string, n: nat)
    requires n <= |s| && s != "" && n == if s[0] == '%' then 3 else 1
    ensures WellEscaped(s) <==> WellEscaped(s[n..]) && (s[0] == '%' ==> Hex(s[1]) && Hex(s[2]))
  {
    assert !Hex('%');
    assert forall k :: n <= k < |s| ==> s[n..][k - n] == s[k];
    if WellEscaped(s[n..]) && (s[0] == '%' ==> Hex(s[1]) && Hex(s[2])) {
      forall k | 0 <= k < |s| && s[k] == '%' ensures k + 2 < |s| && Hex(s[k + 1]) && Hex(s[k + 2]) {
        if k >= n {
          assert s[n..][k - n] == '%';
          assert s[n..][k - n + 1] == s[k + 1] && s[n..][k - n + 2] == s[k + 2];
        }
      }
    }
    if WellEscaped(s) {
      forall k | 0 <= k < |s[n..]| && s[n..][k] == '%' ensures k + 2 < |s[n..]| && Hex(s[n..][k + 1]) && Hex(s[n..][k + 2]) {
        assert s[k + n] == '%';
      }
    }
  }
}

/** The codec substitution the playlist rewriter makes before anything else (libs/videoutils/proxy.go): AAC Main
    (mp4a.40.1) becomes AAC-LC (mp4a.40.2). */
module CodecFix {
  import opened Optional
  import opened Text

  const AAC_MAIN := "mp4a.40.1"
  const AAC_LC := "mp4a.40.2"

  /** Every AAC_MAIN replaced by AAC_LC, left to right. */
  function FixCodec(s: string): string
    decreases |s|
  {
    match IndexOf(s, AAC_MAIN)
    case None => s
    case Some(i) => s[..i] + AAC_LC + FixCodec(s[i + |AAC_MAIN|..])
  }

  /** What the substitution does at position `k`: the last character of an AAC_MAIN becomes '2'. */
  function FixedAt(s: string, k: nat): char
    requires k < |s|
  {
    if k >= 8 && OccursAt(s, AAC_MAIN, k - 8) then '2' else s[k]
  }

  lemma AacSpelled(s: string, i: nat)
    ensures OccursAt(s, AAC_MAIN, i) <==>
              i + 9 <= |s| && s[i] == 'm' && s[i + 1] == 'p' && s[i + 2] == '4' && s[i + 3] == 'a' && s[i + 4] == '.'
              && s[i + 5] == '4' && s[i + 6] == '0' && s[i + 7] == '.' && s[i + 8] == '1'
  {
    if i + 9 <= |s| {
      var t := s[i..i + 9];
      assert forall k :: 0 <= k < 9 ==> t[k] == s[i + k];
      assert t[1] == s[i + 1] && t[2] == s[i + 2] && t[3] == s[i + 3] && t[4] == s[i + 4];
      assert t[5] == s[i + 5] && t[6] == s[i + 6] && t[7] == s[i + 7] && t[8] == s[i + 8];
      if t == AAC_MAIN {
        assert t[0] == 'm' && t[8] == '1';
      }
    }
  }

  /** A cut that no AAC_MAIN crosses does not matter to the substitution. */
  lemma {:induction false} FixedBehind(s: string, from': nat, k: nat)
    requires from' <= k < |s|
    requires forall j: nat :: j < from' && OccursAt(s, AAC_MAIN, j) ==> j + 9 <= from'
    ensures FixedAt(s, k) == FixedAt(s[from'..], k - from')
  {
    assert s == s[..from'] + s[from'..];
    if k >= 8 + from' {
      OccursBehind(s[..from'], s[from'..], AAC_MAIN, k - 8);
    }
  }

  /** Up to the end of the first AAC_MAIN only its last character changes. */
  lemma {:induction false} FixedFront(s: string, i: nat, k: nat)
    requires IndexOf(s, AAC_MAIN) == Some(i) && k < i + 9 <= |s|
    ensures (s[..i] + AAC_LC)[k] == FixedAt(s, k)
  {
    hide IndexOf, OccursAt;
    AacSpelled(s, i);
    if k >= 8 {
      AacSpelled(s, k - 8);
    }
  }

  /** No two AAC_MAIN overlap. */
  lemma {:induction false} NoneCrosses(s: string, i: nat, j: nat)
    requires OccursAt(s, AAC_MAIN, i) && OccursAt(s, AAC_MAIN, j) && j < i + 9
    ensures j + 9 <= i + 9
  {
    AacSpelled(s, i);
    AacSpelled(s, j);
  }

  /** The substitution is the simultaneous replacement at every occurrence. */
  lemma {:induction false} FixCodecAt(s: string, k: nat)
    requires k < |s|
    ensures |FixCodec(s)| == |s| && FixCodec(s)[k] == FixedAt(s, k)
    decreases |s|
  {
    hide IndexOf, OccursAt, FixCodec;
    FixCodecUnfold(s);
    match IndexOf(s, AAC_MAIN)
    case None =>
    case Some(i) =>
      hide FixedAt;
      var rest := s[i + 9..];
      FixCodecLength(rest);
      if k < i + 9 {
        FixedFront(s, i, k);
      } else {
        FixCodecAt(rest, k - i - 9);
        forall j: nat | j < i + 9 && OccursAt(s, AAC_MAIN, j) ensures j + 9 <= i + 9 {
          NoneCrosses(s, i, j);
        }
        FixedBehind(s, i + 9, k);
      }
  }

  lemma {:induction false} FixCodecUnfold(s: string)
    ensures IndexOf(s, AAC_MAIN).None? ==> FixCodec(s) == s
    ensures IndexOf(s, AAC_MAIN).Some? ==>
              var i := IndexOf(s, AAC_MAIN).value;
              i + 9 <= |s| && FixCodec(s) == s[..i] + AAC_LC + FixCodec(s[i + 9..])
  {
  }

  lemma {:induction false} FixCodecLength(s: string)
    ensures |FixCodec(s)| == |s|
    decreases |s|
  {
    match IndexOf(s, AAC_MAIN)
    case None =>
    case Some(i) => FixCodecLength(s[i + 9..]);
  }

  /** The same text, except that some '1' may have become '2'. */
  ghost predicate Alike(s: string, t: string) {
    |t| == |s| && forall k :: 0 <= k < |s| ==> t[k] == s[k] || (s[k] == '1' && t[k] == '2')
  }

  lemma FixCodecAlike(s: string)
    ensures Alike(s, FixCodec(s))
  {
    hide FixCodec, OccursAt;
    FixCodecLength(s);
    forall k | 0 <= k < |s| ensures FixCodec(s)[k] == s[k] || (s[k] == '1' && FixCodec(s)[k] == '2') {
      FixCodecAt(s, k);
      if k >= 8 { AacSpelled(s, k - 8); }
    }
  }

  /** No AAC_MAIN is left. */
  lemma FixCodecClears(s: string)
    ensures !Contains(FixCodec(s), AAC_MAIN)
  {
    hide FixCodec, OccursAt;
    var t := FixCodec(s);
    FixCodecAlike(s);
    if Contains(t, AAC_MAIN) {
      var j := IndexOf(t, AAC_MAIN).value;
      AacSpelled(t, j);
      AacSpelled(s, j);
      FixCodecAt(s, j + 8);
    }
  }

  lemma FixCodecKeeps(s: string)
    ensures !Contains(s, AAC_MAIN) <==> FixCodec(s) == s
  {
    FixCodecClears(s);
  }

  // ----- line by line -----

  predicate NoDigits(pat: string) { '1' !in pat && '2' !in pat }

  lemma {:induction false} AlikeOccurs(s: string, t: string, pat: string, i: nat)
    requires Alike(s, t) && NoDigits(pat)
    ensures OccursAt(t, pat, i) == OccursAt(s, pat, i)
  {
    if i + |pat| <= |s| {
      var a, b := s[i..i + |pat|], t[i..i + |pat|];
      assert forall k :: 0 <= k < |pat| ==> a[k] == s[i + k] && b[k] == t[i + k];
      if a == pat {
        assert forall k :: 0 <= k < |pat| ==> pat[k] in pat;
        assert b == pat;
      }
      if b == pat {
        assert forall k :: 0 <= k < |pat| ==> pat[k] in pat;
        assert a == pat;
      }
    }
  }

  /** What the substitution touches is never looked for elsewhere. */
  lemma {:induction false} AlikeIndexOf(s: string, t: string, pat: string)
    requires Alike(s, t) && NoDigits(pat)
    ensures IndexOf(t, pat) == IndexOf(s, pat)
  {
    hide OccursAt;
    forall i: nat ensures OccursAt(t, pat, i) == OccursAt(s, pat, i) {
      AlikeOccurs(s, t, pat, i);
    }
    if IndexOf(s, pat).Some? {
      FirstOccurrence(t, pat, IndexOf(s, pat).value);
    }
  }

  /** A cut at a newline commutes with the substitution. */
  lemma {:induction false} FixCodecCut(s: string, i: nat)
    requires i < |s| && s[i] == '\n'
    ensures |FixCodec(s)| == |s|
    ensures FixCodec(s)[..i] == FixCodec(s[..i]) && FixCodec(s)[i + 1..] == FixCodec(s[i + 1..])
  {
    hide FixCodec, OccursAt;
    FixCodecLength(s);
    var front, rest := s[..i], s[i + 1..];
    FixCodecLength(front);
    FixCodecLength(rest);
    forall k | 0 <= k < i ensures FixCodec(s)[k] == FixCodec(front)[k] {
      FixCodecAt(s, k);
      FixCodecAt(front, k);
      if k >= 8 {
        assert s == front + s[i..];
        OccursInFront(front, s[i..], AAC_MAIN, k - 8);
      }
    }
    forall j: nat | j < i + 1 && OccursAt(s, AAC_MAIN, j) ensures j + 9 <= i + 1 {
      NoneAcross(s, AAC_MAIN, j, i);
    }
    forall k | 0 <= k < |rest| ensures FixCodec(s)[i + 1 + k] == FixCodec(rest)[k] {
      FixCodecAt(s, i + 1 + k);
      FixCodecAt(rest, k);
      FixedBehind(s, i + 1, i + 1 + k);
    }
  }

  function Lines(s: string): seq<string> { Split(s, "\n") }

  function FixAll(lines: seq<string>): seq<string> { seq(|lines|, k requires 0 <= k < |lines| => FixCodec(lines[k])) }

  /** The substitution never crosses a line. */
  lemma {:induction false} FixCodecLines(s: string)
    ensures Lines(FixCodec(s)) == FixAll(Lines(s))
    decreases |s|
  {
    hide FixCodec, Split, OccursAt;
    FixCodecAlike(s);
    AlikeIndexOf(s, FixCodec(s), "\n");
    SplitUnfold(s, "\n");
    SplitUnfold(FixCodec(s), "\n");
    match IndexOf(s, "\n")
    case None =>
    case Some(i) =>
      NewlineAt(s, i);
      FixCodecCut(s, i);
      FixCodecLines(s[i + 1..]);
  }

  lemma NewlineAt(s: string, i: nat)
    requires OccursAt(s, "\n", i)
    ensures i < |s| && s[i] == '\n'
  {
    assert s[i..i + 1][0] == s[i];
  }
}

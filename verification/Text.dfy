/** String primitives the stream parser and the playlist rewriter share: first occurrence, split, join,
    replace, trim. */
module Text {
  import opened Optional

  predicate OccursAt(s: string, pat: string, i: nat) { i + |pat| <= |s| && s[i..i + |pat|] == pat }

  lemma {:induction false} OccursShift(s: string, pat: string, j: nat)
    requires s != "" && 0 < j
    ensures OccursAt(s, pat, j) == OccursAt(s[1..], pat, j - 1)
  {
    if j + |pat| <= |s| {
      var a, b := s[j..j + |pat|], s[1..][j - 1..j - 1 + |pat|];
      assert forall k :: 0 <= k < |pat| ==> a[k] == s[j + k] && b[k] == s[j + k];
      assert a == b;
    }
  }

  /** The first occurrence of `pat`. */
  function IndexOf(s: string, pat: string): (r: Option<nat>)
    ensures r.Some? ==> OccursAt(s, pat, r.value) && forall j: nat :: j < r.value ==> !OccursAt(s, pat, j)
    ensures r.None? ==> forall j: nat :: !OccursAt(s, pat, j)
  {
    if pat <= s then
      assert OccursAt(s, pat, 0);
      Some(0)
    else if s == "" then None
    else
      var later := IndexOf(s[1..], pat);
      assert !OccursAt(s, pat, 0);
      assert forall j: nat :: 0 < j ==> OccursAt(s, pat, j) == OccursAt(s[1..], pat, j - 1) by {
        forall j: nat | 0 < j ensures OccursAt(s, pat, j) == OccursAt(s[1..], pat, j - 1) {
          OccursShift(s, pat, j);
        }
      }
      if later.Some? then Some(later.value + 1) else None
  }

  predicate Contains(s: string, pat: string) { IndexOf(s, pat).Some? }

  function Split(s: string, sep: string): (parts: seq<string>)
    requires sep != ""
    ensures |parts| > 0
    decreases |s|
  {
    match IndexOf(s, sep)
    case None => [s]
    case Some(i) => [s[..i]] + Split(s[i + |sep|..], sep)
  }

  function Join(parts: seq<string>, sep: string): string
    requires |parts| > 0
  {
    if |parts| == 1 then parts[0] else parts[0] + sep + Join(parts[1..], sep)
  }

  function DropLast<T>(parts: seq<T>): seq<T>
    requires |parts| > 0
  {
    parts[..|parts| - 1]
  }

  function Last<T>(parts: seq<T>): T
    requires |parts| > 0
  {
    parts[|parts| - 1]
  }

  lemma {:induction false} FirstOccurrence(s: string, pat: string, i: nat)
    requires OccursAt(s, pat, i) && forall j: nat :: j < i ==> !OccursAt(s, pat, j)
    ensures IndexOf(s, pat) == Some(i)
  {
  }

  lemma {:induction false} OccursInFront(s: string, t: string, pat: string, i: nat)
    requires i + |pat| <= |s|
    ensures OccursAt(s + t, pat, i) == OccursAt(s, pat, i)
  {
    assert (s + t)[i..i + |pat|] == s[i..i + |pat|];
  }

  /** An occurrence already found stays the first one when text arrives behind it. */
  lemma {:induction false} IndexOfExtended(s: string, t: string, pat: string)
    requires IndexOf(s, pat).Some?
    ensures IndexOf(s + t, pat) == IndexOf(s, pat)
  {
    var i := IndexOf(s, pat).value;
    OccursInFront(s, t, pat, i);
    forall j: nat | j < i ensures !OccursAt(s + t, pat, j) {
      OccursInFront(s, t, pat, j);
    }
    FirstOccurrence(s + t, pat, i);
  }

  lemma {:induction false} SplitUnfold(s: string, sep: string)
    requires sep != ""
    ensures IndexOf(s, sep).None? ==> Split(s, sep) == [s]
    ensures IndexOf(s, sep).Some? ==>
              var i := IndexOf(s, sep).value;
              i + |sep| <= |s| && Split(s, sep) == [s[..i]] + Split(s[i + |sep|..], sep)
  {
  }

  /** Splitting a text that arrives in two pieces: only the unfinished last part is looked at again. */
  lemma {:induction false} SplitExtended(s: string, t: string, sep: string)
    requires sep != ""
    ensures Split(s + t, sep) == DropLast(Split(s, sep)) + Split(Last(Split(s, sep)) + t, sep)
    decreases |s|
  {
    hide Split, OccursAt;
    SplitUnfold(s, sep);
    match IndexOf(s, sep)
    case None =>
      assert DropLast([s]) == [] && Last([s]) == s;
    case Some(i) =>
      IndexOfExtended(s, t, sep);
      SplitUnfold(s + t, sep);
      var tail := s[i + |sep|..];
      assert (s + t)[..i] == s[..i] && (s + t)[i + |sep|..] == tail + t;
      SplitExtended(tail, t, sep);
      assert DropLast(Split(s, sep)) == [s[..i]] + DropLast(Split(tail, sep));
  }

  /** Splitting loses nothing. */
  lemma {:induction false} JoinSplit(s: string, sep: string)
    requires sep != ""
    ensures Join(Split(s, sep), sep) == s
    decreases |s|
  {
    hide Split, IndexOf;
    SplitUnfold(s, sep);
    match IndexOf(s, sep)
    case None =>
    case Some(i) =>
      JoinSplit(s[i + |sep|..], sep);
      assert Split(s, sep)[1..] == Split(s[i + |sep|..], sep);
      assert s == s[..i] + sep + s[i + |sep|..] by { assert OccursAt(s, sep, i); }
  }

  lemma {:induction false} SplitPartsFree(s: string, sep: string)
    requires sep != ""
    ensures forall k :: 0 <= k < |Split(s, sep)| ==> !Contains(Split(s, sep)[k], sep)
    decreases |s|
  {
    hide Split;
    SplitUnfold(s, sep);
    match IndexOf(s, sep)
    case None =>
    case Some(i) =>
      SplitPartsFree(s[i + |sep|..], sep);
      assert s[..i] + s[i..] == s;
      forall j: nat | j + |sep| <= i ensures !OccursAt(s[..i], sep, j) {
        OccursInFront(s[..i], s[i..], sep, j);
      }
  }

  /** A one-character separator: splitting a join of lines without it gives the lines back. */
  lemma {:induction false} SplitJoin(lines: seq<string>, c: char)
    requires |lines| > 0 && forall k :: 0 <= k < |lines| ==> c !in lines[k]
    ensures Split(Join(lines, [c]), [c]) == lines
    decreases |lines|
  {
    hide Split;
    SplitUnfold(Join(lines, [c]), [c]);
    var s := Join(lines, [c]);
    if |lines| == 1 {
      NoSuchChar(lines[0], c);
    } else {
      var tail := Join(lines[1..], [c]);
      SplitJoin(lines[1..], c);
      var i := |lines[0]|;
      assert s == lines[0] + [c] + tail;
      forall j: nat | j < i ensures !OccursAt(s, [c], j) {
        assert s[j..j + 1] == [lines[0][j]];
        assert lines[0][j] in lines[0];
      }
      assert OccursAt(s, [c], i);
      FirstOccurrence(s, [c], i);
      assert s[..i] == lines[0] && s[i + 1..] == tail;
    }
  }

  lemma {:induction false} NoSuchChar(s: string, c: char)
    requires c !in s
    ensures !Contains(s, [c])
  {
    forall j: nat ensures !OccursAt(s, [c], j) {
      if j < |s| { assert s[j..j + 1] == [s[j]]; }
    }
  }

  lemma {:induction false} SplitLinesHaveNone(s: string, c: char)
    ensures forall k :: 0 <= k < |Split(s, [c])| ==> c !in Split(s, [c])[k]
  {
    SplitPartsFree(s, [c]);
    forall k | 0 <= k < |Split(s, [c])| ensures c !in Split(s, [c])[k] {
      var part := Split(s, [c])[k];
      if c in part {
        var j: nat :| j < |part| && part[j] == c;
        assert part[j..j + 1] == [c];
        assert OccursAt(part, [c], j);
      }
    }
  }

  // ----- trimming -----

  function TrimLeft(s: string, space: char -> bool): string {
    if s != "" && space(s[0]) then TrimLeft(s[1..], space) else s
  }

  function TrimRight(s: string, space: char -> bool): string {
    if s != "" && space(s[|s| - 1]) then TrimRight(s[..|s| - 1], space) else s
  }

  function Trim(s: string, space: char -> bool): string { TrimRight(TrimLeft(s, space), space) }

  predicate Trimmed(s: string, space: char -> bool) { s != "" ==> !space(s[0]) && !space(s[|s| - 1]) }

  lemma {:induction false} TrimRightFront(s: string, space: char -> bool)
    ensures TrimRight(s, space) <= s
    ensures TrimRight(s, space) != "" ==> !space(TrimRight(s, space)[|TrimRight(s, space)| - 1])
    decreases |s|
  {
    if s != "" && space(s[|s| - 1]) {
      TrimRightFront(s[..|s| - 1], space);
    }
  }

  lemma {:induction false} TrimLeftBack(s: string, space: char -> bool)
    ensures TrimLeft(s, space) != "" ==> !space(TrimLeft(s, space)[0])
    decreases |s|
  {
    if s != "" && space(s[0]) {
      TrimLeftBack(s[1..], space);
    }
  }

  lemma TrimIsTrimmed(s: string, space: char -> bool)
    ensures Trimmed(Trim(s, space), space)
  {
    TrimLeftBack(s, space);
    TrimRightFront(TrimLeft(s, space), space);
  }

  lemma TrimFixes(s: string, space: char -> bool)
    requires Trimmed(s, space)
    ensures Trim(s, space) == s
  {
  }

  // ----- occurrences in pieces -----

  lemma {:induction false} ContainsAt(s: string, pat: string, i: nat)
    requires OccursAt(s, pat, i)
    ensures Contains(s, pat)
  {
  }

  lemma {:induction false} OccursInside(s: string, pat: string, from': nat, to: nat, i: nat)
    requires from' <= to <= |s| && OccursAt(s[from'..to], pat, i)
    ensures OccursAt(s, pat, from' + i)
  {
    var a, b := s[from'..to][i..i + |pat|], s[from' + i..from' + i + |pat|];
    assert forall k :: 0 <= k < |pat| ==> a[k] == s[from' + i + k] && b[k] == s[from' + i + k];
    assert a == b;
  }

  /** A text without `pat` has no piece with it. */
  lemma {:induction false} PieceFree(s: string, pat: string, from': nat, to: nat)
    requires from' <= to <= |s| && !Contains(s, pat)
    ensures !Contains(s[from'..to], pat)
  {
    if Contains(s[from'..to], pat) {
      OccursInside(s, pat, from', to, IndexOf(s[from'..to], pat).value);
    }
  }

  lemma {:induction false} ContainsPart(s: string, pat: string, i: nat, j: nat)
    requires Contains(s, pat) && i <= j <= |pat|
    ensures Contains(s, pat[i..j])
  {
    var k := IndexOf(s, pat).value;
    var a, part := s[k + i..k + j], pat[i..j];
    assert forall l :: 0 <= l < j - i ==> a[l] == s[k..k + |pat|][i + l];
    assert a == part;
    ContainsAt(s, part, k + i);
  }

  /** A text that lacks a character of `pat` lacks `pat`. */
  lemma {:induction false} MissingChar(s: string, pat: string, c: char)
    requires c in pat && c !in s
    ensures !Contains(s, pat)
  {
    var k: nat :| k < |pat| && pat[k] == c;
    forall i: nat ensures !OccursAt(s, pat, i) {
      if i + |pat| <= |s| {
        assert s[i..i + |pat|][k] == s[i + k];
        assert s[i + k] in s;
      }
    }
  }

  lemma {:induction false} OccursBehind(a: string, b: string, pat: string, i: nat)
    requires |a| <= i
    ensures OccursAt(a + b, pat, i) == OccursAt(b, pat, i - |a|)
  {
    if i + |pat| <= |a + b| {
      var x, y := (a + b)[i..i + |pat|], b[i - |a|..i - |a| + |pat|];
      assert forall k :: 0 <= k < |pat| ==> x[k] == b[i - |a| + k] && y[k] == b[i - |a| + k];
      assert x == y;
    }
  }

  lemma {:induction false} NoneAcross(s: string, pat: string, i: nat, p: nat)
    requires OccursAt(s, pat, i) && p < |s| && s[p] !in pat
    ensures p < i || i + |pat| <= p
  {
    assert forall k :: 0 <= k < |pat| ==> pat[k] == s[i + k];
  }

  /** A character that is not in `pat` separates: an occurrence lies on one side of it. */
  lemma {:induction false} ContainsAround(a: string, c: char, b: string, pat: string)
    requires c !in pat && pat != ""
    ensures Contains(a + [c] + b, pat) == (Contains(a, pat) || Contains(b, pat))
  {
    var s := a + [c] + b;
    assert s[0..|a|] == a && s[|a| + 1..|s|] == b;
    if !Contains(s, pat) {
      PieceFree(s, pat, 0, |a|);
      PieceFree(s, pat, |a| + 1, |s|);
    } else {
      var i := IndexOf(s, pat).value;
      NoneAcross(s, pat, i, |a|);
      if i + |pat| <= |a| {
        assert s == a + ([c] + b);
        OccursInFront(a, [c] + b, pat, i);
        ContainsAt(a, pat, i);
      } else {
        OccursBehind(a + [c], b, pat, i);
        ContainsAt(b, pat, i - |a| - 1);
      }
    }
  }

  lemma {:induction false} TrimWithout(s: string, c: char, space: char -> bool)
    requires c !in s
    ensures c !in Trim(s, space)
  {
    TrimLeftWithout(s, c, space);
    TrimRightFront(TrimLeft(s, space), space);
  }

  lemma {:induction false} TrimLeftWithout(s: string, c: char, space: char -> bool)
    requires c !in s
    ensures c !in TrimLeft(s, space)
    decreases |s|
  {
    if s != "" && space(s[0]) {
      TrimLeftWithout(s[1..], c, space);
    }
  }

  lemma {:induction false} TrimLeftLength(s: string, space: char -> bool)
    ensures |TrimLeft(s, space)| <= |s|
    ensures |TrimLeft(s, space)| == |s| ==> TrimLeft(s, space) == s
    decreases |s|
  {
    if s != "" && space(s[0]) {
      TrimLeftLength(s[1..], space);
    }
  }

  lemma {:induction false} TrimLength(s: string, space: char -> bool)
    requires |Trim(s, space)| == |s|
    ensures Trim(s, space) == s
  {
    TrimLeftLength(s, space);
    TrimRightFront(TrimLeft(s, space), space);
  }

  /** Trimming cannot hide a text without spaces. */
  lemma {:induction false} TrimLeftKeeps(s: string, pat: string, space: char -> bool)
    requires pat != "" && forall c :: c in pat ==> !space(c)
    ensures Contains(TrimLeft(s, space), pat) == Contains(s, pat)
    decreases |s|
  {
    if s != "" && space(s[0]) {
      assert pat[0] in pat;
      TrimLeftKeeps(s[1..], pat, space);
    }
  }

  lemma {:induction false} TrimRightKeeps(s: string, pat: string, space: char -> bool)
    requires pat != "" && forall c :: c in pat ==> !space(c)
    ensures Contains(TrimRight(s, space), pat) == Contains(s, pat)
    decreases |s|
  {
    if s != "" && space(s[|s| - 1]) {
      var front := s[..|s| - 1];
      TrimRightKeeps(front, pat, space);
      assert s == front + [s[|s| - 1]];
      var last := s[|s| - 1];
      assert last !in pat;
      MissingChar("", pat, pat[0]);
      assert s == front + [last] + "";
      ContainsAround(front, last, "", pat);
    }
  }

  lemma {:induction false} TrimKeeps(s: string, pat: string, space: char -> bool)
    requires pat != "" && forall c :: c in pat ==> !space(c)
    ensures Contains(Trim(s, space), pat) == Contains(s, pat)
  {
    TrimLeftKeeps(s, pat, space);
    TrimRightKeeps(TrimLeft(s, space), pat, space);
  }

  // ----- joins -----

  lemma {:induction false} JoinAppend(parts: seq<string>, last: string, sep: string)
    requires |parts| > 0
    ensures Join(parts + [last], sep) == Join(parts, sep) + sep + last
    decreases |parts|
  {
    if |parts| > 1 {
      JoinAppend(parts[1..], last, sep);
      assert (parts + [last])[1..] == parts[1..] + [last];
    } else {
      assert (parts + [last])[1..] == [last];
    }
  }

  /** A text that does not hold the separating character is in a join exactly when it is in one of its parts. */
  lemma {:induction false} JoinContains(parts: seq<string>, c: char, pat: string)
    requires |parts| > 0 && pat != "" && c !in pat
    ensures Contains(Join(parts, [c]), pat) == exists k :: 0 <= k < |parts| && Contains(parts[k], pat)
    decreases |parts|
  {
    hide Contains;
    if |parts| == 1 {
      assert Contains(parts[0], pat) ==> exists k :: 0 <= k < |parts| && Contains(parts[k], pat);
    } else {
      var tail := parts[1..];
      JoinContains(tail, c, pat);
      assert Join(parts, [c]) == parts[0] + [c] + Join(tail, [c]);
      ContainsAround(parts[0], c, Join(tail, [c]), pat);
      if k :| 0 <= k < |tail| && Contains(tail[k], pat) {
        assert Contains(parts[k + 1], pat);
      }
      if k :| 0 <= k < |parts| && Contains(parts[k], pat) {
        if k > 0 { assert Contains(tail[k - 1], pat); }
      }
    }
  }
}

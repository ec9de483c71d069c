/** Title similarity (libs/animeparser/title_normalizer.go).

    `LevenshteinDistance` is the one-row in-place loop.  The reference it is proved against says nothing
    about rows or recursion: it is the length of the shortest chain of strings that leads from the first
    title to the second by inserting, deleting or substituting one byte at a time. */
module EditDistance {

  newtype byte = x: int | 0 <= x < 256
  type Bytes = seq<byte>

  // ----- the reference: chains of single-byte edits -----

  /** `t` is `s` with the `gone` bytes at `i` (none or one) replaced by `put` (none or one byte). */
  ghost predicate EditAt(s: Bytes, t: Bytes, i: nat, gone: nat, put: Bytes) {
    && gone <= 1 && |put| <= 1 && i + gone <= |s|
    && t == s[..i] + put + s[i + gone..]
  }

  /** One insertion, deletion or substitution of a single byte. */
  ghost predicate OneEdit(s: Bytes, t: Bytes) {
    exists i: nat, gone: nat, put: Bytes :: EditAt(s, t, i, gone, put)
  }

  /** `chain` starts at `s`, ends at `t` and every step is one edit. */
  ghost predicate EditChain(chain: seq<Bytes>, s: Bytes, t: Bytes) {
    && |chain| > 0 && chain[0] == s && chain[|chain| - 1] == t
    && forall k :: 0 < k < |chain| ==> OneEdit(chain[k - 1], chain[k])
  }

  // ----- the recurrence the row computes -----

  function Min(a: nat, b: nat): nat { if a <= b then a else b }

  function Front(s: Bytes): Bytes
    requires s != []
  {
    s[..|s| - 1]
  }

  function Last(s: Bytes): byte
    requires s != []
  {
    s[|s| - 1]
  }

  /** Equal last bytes take the diagonal without a minimum, as the loop does. */
  function Lev(s: Bytes, t: Bytes): nat
    decreases |s| + |t|
  {
    if s == [] then |t|
    else if t == [] then |s|
    else if Last(s) == Last(t) then Lev(Front(s), Front(t))
    else Min(Min(Lev(Front(s), Front(t)) + 1, Lev(s, Front(t)) + 1), Lev(Front(s), t) + 1)
  }

  /** One unfolding of the recurrence; lemmas that need no more than this hide `Lev`. */
  lemma {:induction false} LevUnfold(s: Bytes, t: Bytes)
    requires s != [] && t != []
    ensures Lev(s, t) ==
            if Last(s) == Last(t) then Lev(Front(s), Front(t))
            else Min(Min(Lev(Front(s), Front(t)) + 1, Lev(s, Front(t)) + 1), Lev(Front(s), t) + 1)
  {
  }

  // ----- neighbouring cells differ by at most one, so skipping the minimum is sound -----

  lemma {:induction false} LevPushRight(s: Bytes, t: Bytes, b: byte)
    ensures Lev(s, t + [b]) <= Lev(s, t) + 1
    ensures Lev(s, t) <= Lev(s, t + [b]) + 1
    decreases |s| + |t|, 1
  {
    assert Front(t + [b]) == t;
    if s != [] {
      LevPushLeftAt(s, t);
      if Last(s) != b {
        LevPushRight(Front(s), t, b);
      }
    }
  }

  /** Dropping the last byte of the left string moves the distance by at most one. */
  lemma {:induction false} LevPushLeftAt(s: Bytes, t: Bytes)
    requires s != []
    ensures Lev(s, t) <= Lev(Front(s), t) + 1
    ensures Lev(Front(s), t) <= Lev(s, t) + 1
    decreases |s| + |t|, 0
  {
    if t != [] {
      LevPushLeftAt(s, Front(t));
      assert t == Front(t) + [Last(t)];
      LevPushRight(Front(s), Front(t), Last(t));
    }
  }

  lemma {:induction false} LevCases(s: Bytes, t: Bytes)
    requires s != [] && t != []
    ensures var d := if Last(s) == Last(t) then 0 else 1;
            Lev(s, t) == Min(Min(Lev(Front(s), Front(t)) + d, Lev(s, Front(t)) + 1), Lev(Front(s), t) + 1)
  {
    hide Lev;
    LevUnfold(s, t);
    LevPushLeftAt(s, Front(t));
    assert t == Front(t) + [Last(t)];
    LevPushRight(Front(s), Front(t), Last(t));
  }

  // ----- metric laws -----

  lemma {:induction false} LevBounds(s: Bytes, t: Bytes)
    ensures |s| - |t| <= Lev(s, t) && |t| - |s| <= Lev(s, t)
    ensures Lev(s, t) <= if |s| <= |t| then |t| else |s|
    decreases |s| + |t|
  {
    if s != [] && t != [] {
      LevBounds(Front(s), Front(t));
      LevBounds(s, Front(t));
      LevBounds(Front(s), t);
    }
  }

  lemma {:induction false} LevZeroIffEqual(s: Bytes, t: Bytes)
    ensures Lev(s, t) == 0 <==> s == t
    decreases |s|
  {
    if s != [] && t != [] && Last(s) == Last(t) {
      LevZeroIffEqual(Front(s), Front(t));
      assert s == Front(s) + [Last(s)] && t == Front(t) + [Last(t)];
    }
  }

  lemma {:induction false} LevSymmetric(s: Bytes, t: Bytes)
    ensures Lev(s, t) == Lev(t, s)
    decreases |s| + |t|
  {
    if s != [] && t != [] {
      LevSymmetric(Front(s), Front(t));
      LevSymmetric(s, Front(t));
      LevSymmetric(Front(s), t);
    }
  }

  lemma {:induction false} LevTriangle(s: Bytes, t: Bytes, u: Bytes)
    ensures Lev(s, u) <= Lev(s, t) + Lev(t, u)
    decreases |s| + |t| + |u|
  {
    hide Lev;
    if s == [] || t == [] || u == [] {
      LevBounds(s, t);
      LevBounds(t, u);
      LevBounds(s, u);
    } else {
      LevCases(s, t);
      LevCases(t, u);
      LevCases(s, u);
      LevTriangle(Front(s), t, u);
      LevTriangle(s, t, Front(u));
      LevTriangle(s, Front(t), u);
      LevTriangle(s, Front(t), Front(u));
      LevTriangle(Front(s), Front(t), u);
      LevTriangle(Front(s), Front(t), Front(u));
    }
  }

  // ----- Lev is the length of the shortest edit chain -----

  /** A common tail adds nothing to the distance. */
  lemma {:induction false} LevSharedTail(s: Bytes, t: Bytes, tail: Bytes)
    ensures Lev(s + tail, t + tail) <= Lev(s, t)
    decreases |tail|
  {
    if tail == [] {
      assert s + tail == s && t + tail == t;
    } else {
      LevSharedTail(s, t, Front(tail));
      assert Front(s + tail) == s + Front(tail) && Front(t + tail) == t + Front(tail);
    }
  }

  /** At the edited position itself: a common prefix, then at most one byte on either side. */
  lemma LevAtTheEdit(head: Bytes, mid: Bytes, put: Bytes)
    requires |mid| <= 1 && |put| <= 1
    ensures Lev(head + mid, head + put) <= 1
  {
    hide Lev;
    LevZeroIffEqual(head, head);
    if mid == [] {
      assert head + mid == head;
      if put == [] {
        assert head + put == head;
      } else {
        LevPushRight(head, head, put[0]);
        assert put == [put[0]];
      }
    } else {
      assert Front(head + mid) == head;
      if put == [] {
        assert head + put == head;
        LevPushLeftAt(head + mid, head);
      } else {
        assert Front(head + put) == head;
        LevCases(head + mid, head + put);
      }
    }
  }

  lemma LevOneEdit(s: Bytes, t: Bytes)
    requires OneEdit(s, t)
    ensures Lev(s, t) <= 1
  {
    hide Lev;
    var i: nat, gone: nat, put :| EditAt(s, t, i, gone, put);
    var head, mid, tail := s[..i], s[i..i + gone], s[i + gone..];
    assert s == head + mid + tail;
    LevAtTheEdit(head, mid, put);
    LevSharedTail(head + mid, head + put, tail);
  }

  /** No chain of edits is shorter than the distance. */
  lemma {:induction false} ChainAtLeastLev(chain: seq<Bytes>, s: Bytes, t: Bytes)
    requires EditChain(chain, s, t)
    ensures Lev(s, t) <= |chain| - 1
    decreases |chain|
  {
    hide Lev;
    if |chain| == 1 {
      LevZeroIffEqual(s, t);
    } else {
      var n := |chain| - 1;
      ChainAtLeastLev(chain[..n], s, chain[n - 1]);
      assert OneEdit(chain[n - 1], chain[n]);
      LevOneEdit(chain[n - 1], t);
      LevTriangle(s, chain[n - 1], t);
    }
  }

  /** Editing in front of a fixed last byte. */
  lemma OneEditPush(s: Bytes, t: Bytes, b: byte)
    requires OneEdit(s, t)
    ensures OneEdit(s + [b], t + [b])
  {
    var i: nat, gone: nat, put :| EditAt(s, t, i, gone, put);
    assert (s + [b])[..i] == s[..i];
    assert (s + [b])[i + gone..] == s[i + gone..] + [b];
    assert t + [b] == (s + [b])[..i] + put + (s + [b])[i + gone..];
    assert EditAt(s + [b], t + [b], i, gone, put);
  }

  function PushAll(chain: seq<Bytes>, b: byte): (r: seq<Bytes>)
    ensures |r| == |chain|
    ensures forall k :: 0 <= k < |chain| ==> r[k] == chain[k] + [b]
  {
    seq(|chain|, k requires 0 <= k < |chain| => chain[k] + [b])
  }

  lemma ChainPush(chain: seq<Bytes>, s: Bytes, t: Bytes, b: byte)
    requires EditChain(chain, s, t)
    ensures EditChain(PushAll(chain, b), s + [b], t + [b])
  {
    var up := PushAll(chain, b);
    forall k | 0 < k < |up| ensures OneEdit(up[k - 1], up[k]) {
      OneEditPush(chain[k - 1], chain[k], b);
    }
  }

  lemma EditLast(s: Bytes, b: byte, c: byte)
    ensures OneEdit(s + [b], s)
    ensures OneEdit(s, s + [b])
    ensures OneEdit(s + [b], s + [c])
  {
    assert (s + [b])[..|s|] == s;
    assert EditAt(s + [b], s, |s|, 1, []) by { assert (s + [b])[|s| + 1..] == []; assert s == s + [] + []; }
    assert EditAt(s, s + [b], |s|, 0, [b]) by { assert s[|s|..] == []; assert s[..|s|] == s; }
    assert EditAt(s + [b], s + [c], |s|, 1, [c]) by { assert (s + [b])[|s| + 1..] == []; }
  }

  lemma ChainExtend(chain: seq<Bytes>, s: Bytes, t: Bytes, u: Bytes)
    requires EditChain(chain, s, t) && OneEdit(t, u)
    ensures EditChain(chain + [u], s, u)
  {
  }

  lemma ChainCons(chain: seq<Bytes>, r: Bytes, s: Bytes, t: Bytes)
    requires EditChain(chain, s, t) && OneEdit(r, s)
    ensures EditChain([r] + chain, r, t)
  {
  }

  /** Where the recurrence goes next. */
  lemma {:induction false} LevDescends(s: Bytes, t: Bytes)
    ensures s == [] && t == [] ==> Lev(s, t) == 0
    ensures s == [] && t != [] ==> Lev(s, t) == Lev(s, Front(t)) + 1
    ensures s != [] && t == [] ==> Lev(s, t) == Lev(Front(s), t) + 1
    ensures s != [] && t != [] && Last(s) == Last(t) ==> Lev(s, t) == Lev(Front(s), Front(t))
    ensures s != [] && t != [] && Last(s) != Last(t) && Lev(s, t) != Lev(s, Front(t)) + 1 && Lev(s, t) != Lev(Front(s), t) + 1
            ==> Lev(s, t) == Lev(Front(s), Front(t)) + 1
  {
  }

  /** A chain of exactly the distance exists. */
  lemma {:induction false} ShortestChain(s: Bytes, t: Bytes) returns (chain: seq<Bytes>)
    ensures EditChain(chain, s, t) && |chain| == Lev(s, t) + 1
    decreases |s| + |t|
  {
    hide Lev, OneEdit, EditAt;
    LevDescends(s, t);
    if s == [] && t == [] {
      chain := [s];
    } else if s == [] || (t != [] && Last(s) != Last(t) && Lev(s, t) == Lev(s, Front(t)) + 1) {
      chain := ShortestChain(s, Front(t));
      EditLast(Front(t), Last(t), 0);
      assert t == Front(t) + [Last(t)];
      ChainExtend(chain, s, Front(t), t);
      chain := chain + [t];
    } else if t == [] || (Last(s) != Last(t) && Lev(s, t) == Lev(Front(s), t) + 1) {
      chain := ShortestChain(Front(s), t);
      EditLast(Front(s), Last(s), 0);
      assert s == Front(s) + [Last(s)];
      ChainCons(chain, s, Front(s), t);
      chain := [s] + chain;
    } else {
      chain := ShortestChain(Front(s), Front(t));
      ChainPush(chain, Front(s), Front(t), Last(t));
      chain := PushAll(chain, Last(t));
      assert s == Front(s) + [Last(s)] && t == Front(t) + [Last(t)];
      if Last(s) != Last(t) {
        var s' := Front(s) + [Last(t)];
        EditLast(Front(s), Last(s), Last(t));
        ChainCons(chain, s, s', t);
        chain := [s] + chain;
      }
    }
  }

  /** The reference value: the least number of single-byte edits from `s` to `t`. */
  ghost predicate IsEditDistance(d: nat, s: Bytes, t: Bytes) {
    && (exists chain :: EditChain(chain, s, t) && |chain| == d + 1)
    && (forall chain :: EditChain(chain, s, t) ==> d + 1 <= |chain|)
  }

  lemma LevIsEditDistance(s: Bytes, t: Bytes)
    ensures IsEditDistance(Lev(s, t), s, t)
  {
    var shortest := ShortestChain(s, t);
    forall chain | EditChain(chain, s, t) ensures Lev(s, t) + 1 <= |chain| {
      ChainAtLeastLev(chain, s, t);
    }
  }

  // ----- the loop -----

  lemma {:induction false} LevEmpty(s: Bytes)
    ensures Lev(s, []) == |s| && Lev([], s) == |s|
  {
  }

  lemma {:induction false} LevStep(s: Bytes, t: Bytes, i: nat, j: nat)
    requires 0 < i <= |s| && 0 < j <= |t|
    ensures Lev(s[..i], t[..j]) ==
            if s[i - 1] == t[j - 1] then Lev(s[..i - 1], t[..j - 1])
            else Min(Min(Lev(s[..i - 1], t[..j - 1]) + 1, Lev(s[..i], t[..j - 1]) + 1), Lev(s[..i - 1], t[..j]) + 1)
  {
    hide Lev;
    LevUnfold(s[..i], t[..j]);
    assert Front(s[..i]) == s[..i - 1] && Front(t[..j]) == t[..j - 1];
  }

  method LevenshteinDistance(s1: Bytes, s2: Bytes) returns (distance: nat)
    ensures distance == Lev(s1, s2)
    ensures IsEditDistance(distance, s1, s2)
  {
    hide Lev, IsEditDistance;
    LevIsEditDistance(s1, s2);
    LevEmpty(s1);
    LevEmpty(s2);
    if |s1| == 0 {
      return |s2|;
    }
    if |s2| == 0 {
      return |s1|;
    }
    var row := new nat[|s2| + 1];
    for i := 0 to row.Length
      invariant forall k :: 0 <= k < i ==> row[k] == k
    {
      row[i] := i;
    }
    forall k | 0 <= k <= |s2| ensures Lev(s1[..0], s2[..k]) == k {
      LevEmpty(s2[..k]);
    }
    for i := 1 to |s1| + 1
      invariant forall k :: 0 <= k <= |s2| ==> row[k] == Lev(s1[..i - 1], s2[..k])
    {
      var prev := i;
      LevEmpty(s1[..i]);
      for j := 1 to |s2| + 1
        invariant prev == Lev(s1[..i], s2[..j - 1])
        invariant forall k :: 0 <= k < j - 1 ==> row[k] == Lev(s1[..i], s2[..k])
        invariant forall k :: j - 1 <= k <= |s2| ==> row[k] == Lev(s1[..i - 1], s2[..k])
      {
        LevStep(s1, s2, i, j);
        var current := row[j - 1];
        if s1[i - 1] != s2[j - 1] {
          current := Min(Min(row[j - 1] + 1, prev + 1), row[j] + 1);
        }
        row[j - 1] := prev;
        prev := current;
      }
      row[|s2|] := prev;
    }
    assert s1[..|s1|] == s1 && s2[..|s2|] == s2;
    return row[|s2|];
  }

  // ----- similarity -----

  function MaxLen(s: Bytes, t: Bytes): nat { if |s| <= |t| then |t| else |s| }

  ghost function Similarity(s: Bytes, t: Bytes): real {
    if s == t then 1.0 else 1.0 - Lev(s, t) as real / MaxLen(s, t) as real
  }

  lemma {:induction false} SimilarityLaws(s: Bytes, t: Bytes)
    ensures 0.0 <= Similarity(s, t) <= 1.0
    ensures Similarity(s, t) == 1.0 <==> s == t
    ensures Similarity(s, t) == Similarity(t, s)
    ensures Similarity(s, t) == 0.0 <==> Lev(s, t) == MaxLen(s, t) && s != t
  {
    LevBounds(s, t);
    LevZeroIffEqual(s, t);
    LevSymmetric(s, t);
    if s != t {
      var d, m := Lev(s, t) as real, MaxLen(s, t) as real;
      assert 0.0 < d <= m;
      QuotientRange(d, m);
    }
  }

  lemma QuotientRange(d: real, m: real)
    requires 0.0 < d <= m
    ensures 0.0 < d / m <= 1.0
    ensures d / m == 1.0 <==> d == m
  {
    var q := d / m;
    assert q * m == d;
    assert q > 1.0 ==> q * m > m;
    assert q <= 0.0 ==> q * m <= 0.0;
  }

  /** `normalize` stands for NormalizeTitle, whatever it does. */
  method CalculateTitleSimilarity(normalize: string -> Bytes, title1: string, title2: string) returns (similarity: real)
    ensures similarity == Similarity(normalize(title1), normalize(title2))
    ensures 0.0 <= similarity <= 1.0
    ensures similarity == 1.0 <==> normalize(title1) == normalize(title2)
    ensures var s, t := normalize(title1), normalize(title2);
            exists d: nat :: IsEditDistance(d, s, t) && (1.0 - similarity) * (if |s| <= |t| then |t| else |s|) as real == d as real
  {
    var norm1, norm2 := normalize(title1), normalize(title2);
    SimilarityLaws(norm1, norm2);
    LevIsEditDistance(norm1, norm2);
    LevZeroIffEqual(norm1, norm2);
    hide IsEditDistance, Lev;
    if norm1 == norm2 {
      return 1.0;
    }
    var distance := LevenshteinDistance(norm1, norm2);
    var maxLen := if |norm1| <= |norm2| then |norm2| else |norm1|;
    if maxLen == 0 {
      return 1.0;
    }
    QuotientBack(distance as real, maxLen as real);
    return 1.0 - distance as real / maxLen as real;
  }

  lemma QuotientBack(d: real, m: real)
    requires 0.0 < m
    ensures (1.0 - (1.0 - d / m)) * m == d
  {
    assert 1.0 - (1.0 - d / m) == d / m;
  }
}

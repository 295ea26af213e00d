// The slot list of a Graphite segment seen through its link views: `nx[s]`
// and `pv[s]` are the `next` and `prev` indices of slot `s` (NIL for Go's
// nil).  Holds the list invariant and the step lemmas of `reverseSlots`.

module SlotLinks {
  import opened SlotOrder

  const NIL: int := -1

  predicate InRange(L: seq<int>, n: int)
  {
    forall m :: 0 <= m < |L| ==> 0 <= L[m] < n
  }

  /** Consecutive entries of `R` are linked both ways. */
  predicate Chain(nx: seq<int>, pv: seq<int>, R: seq<int>)
  {
    |nx| == |pv| && InRange(R, |nx|) &&
    (forall m :: 0 <= m < |R| - 1 ==> nx[R[m]] == R[m + 1]) &&
    (forall m :: 0 < m < |R| ==> pv[R[m]] == R[m - 1])
  }

  /** `L` is the list from `first` to `last`, with nil at both ends. */
  predicate IsList(nx: seq<int>, pv: seq<int>, L: seq<int>, first: int, last: int)
  {
    Chain(nx, pv, L) &&
    (L == [] ==> first == NIL && last == NIL) &&
    (L != [] ==> first == L[0] && last == L[|L| - 1] && pv[L[0]] == NIL && nx[L[|L| - 1]] == NIL)
  }

  /** `s.next.prev == s` and `s.prev.next == s` for every linked slot. */
  predicate LocallyLinked(nx: seq<int>, pv: seq<int>)
    requires |nx| == |pv|
  {
    (forall s :: 0 <= s < |nx| && 0 <= nx[s] < |nx| ==> pv[nx[s]] == s) &&
    (forall s :: 0 <= s < |pv| && 0 <= pv[s] < |pv| ==> nx[pv[s]] == s)
  }

  lemma MemberAt(L: seq<int>, i: int, j: int, x: int) returns (m: int)
    requires 0 <= i <= j <= |L| && x in L[i..j]
    ensures i <= m < j && L[m] == x
  {
    var q :| 0 <= q < j - i && L[i..j][q] == x;
    m := i + q;
  }

  lemma IndexOf(L: seq<int>, x: int) returns (m: int)
    requires x in L
    ensures 0 <= m < |L| && L[m] == x
  {
    m :| 0 <= m < |L| && L[m] == x;
  }

  /** A list that holds every slot of the arena is locally linked. */
  lemma {:induction false} ListLocallyLinked(nx: seq<int>, pv: seq<int>, L: seq<int>, first: int, last: int)
    requires IsList(nx, pv, L, first, last) && Distinct(L)
    requires forall x :: 0 <= x < |nx| ==> x in L
    ensures LocallyLinked(nx, pv)
  {
    forall s | 0 <= s < |nx| && 0 <= nx[s] < |nx|
      ensures pv[nx[s]] == s
    {
      var m := IndexOf(L, s);
      if m < |L| - 1 {
        assert nx[L[m]] == L[m + 1] && pv[L[m + 1]] == L[m];
      }
    }
    forall s | 0 <= s < |pv| && 0 <= pv[s] < |pv|
      ensures nx[pv[s]] == s
    {
      var m := IndexOf(L, s);
      if m > 0 {
        assert pv[L[m]] == L[m - 1] && nx[L[m - 1]] == L[m];
      }
    }
  }

  /** Two lists in the same order over the whole arena have the same links everywhere. */
  lemma {:induction false} ListDeterminesLinks(nx: seq<int>, pv: seq<int>, nx2: seq<int>, pv2: seq<int>,
                                               L: seq<int>, first: int, last: int)
    requires IsList(nx, pv, L, first, last) && IsList(nx2, pv2, L, first, last)
    requires |nx2| == |nx| && Distinct(L)
    requires forall x :: 0 <= x < |nx| ==> x in L
    ensures nx2 == nx && pv2 == pv
  {
    forall s | 0 <= s < |nx|
      ensures nx2[s] == nx[s] && pv2[s] == pv[s]
    {
      var m := IndexOf(L, s);
      if m < |L| - 1 {
        assert nx[L[m]] == L[m + 1] && nx2[L[m]] == L[m + 1];
      } else {
        assert nx[L[m]] == NIL && nx2[L[m]] == NIL;
      }
      if m > 0 {
        assert pv[L[m]] == L[m - 1] && pv2[L[m]] == L[m - 1];
      } else {
        assert pv[L[m]] == NIL && pv2[L[m]] == NIL;
      }
    }
  }

  // ---------------------------------------------------------------------
  // One iteration of the `reverseSlots` loop, on the link views
  // ---------------------------------------------------------------------

  /** The list before reversal. */
  ghost predicate Orig(nx0: seq<int>, pv0: seq<int>, L: seq<int>)
  {
    L != [] && |nx0| == |L| && |pv0| == |L| && Distinct(L) &&
    IsList(nx0, pv0, L, L[0], L[|L| - 1])
  }

  /**
   * After the slots `L[k..j]` (`L[k]` the first base) have been handled they
   * form the list `R`, headed by `out` and ending in `tlast`.
   */
  ghost predicate Shape(L: seq<int>, M: set<int>, k: int, j: int, R: seq<int>, out: int, tlast: int)
  {
    0 <= k <= j <= |L| && k < |L| && L[k] !in M && AllMarks(L[..k], M) &&
    R == RevClusters(L[k..j], M) &&
    (j == k ==> out == NIL && tlast == L[k]) &&
    (j > k ==> |R| > 0 && out == R[0] && tlast == R[|R| - 1]) &&
    (k < j < |L| && L[j] in M ==> L[j - 1] !in M)
  }

  /** `R` is linked both ways, nil after its tail; its head's `prev` is not set yet. */
  ghost predicate Linked(nx: seq<int>, pv: seq<int>, R: seq<int>)
  {
    Chain(nx, pv, R) && (R != [] ==> nx[R[|R| - 1]] == NIL)
  }

  /** The slots outside `L[k..j]` keep their original links. */
  ghost predicate Untouched(nx: seq<int>, pv: seq<int>, nx0: seq<int>, pv0: seq<int>, L: seq<int>, k: int, j: int)
  {
    0 <= k <= j <= |L| && |nx| == |L| && |pv| == |L| && |nx0| == |L| && |pv0| == |L| && InRange(L, |L|) &&
    forall m :: (0 <= m < k || j <= m < |L|) ==> nx[L[m]] == nx0[L[m]] && pv[L[m]] == pv0[L[m]]
  }

  ghost predicate RevState(nx: seq<int>, pv: seq<int>, nx0: seq<int>, pv0: seq<int>,
                           L: seq<int>, M: set<int>, k: int, j: int, R: seq<int>, out: int, tlast: int)
  {
    Shape(L, M, k, j, R, out, tlast) && Linked(nx, pv, R) && Untouched(nx, pv, nx0, pv0, L, k, j)
  }

  lemma RevClustersOfSlice(L: seq<int>, M: set<int>, k: int, j: int)
    requires Distinct(L) && 0 <= k <= j <= |L|
    ensures |RevClusters(L[k..j], M)| == j - k
    ensures Distinct(RevClusters(L[k..j], M))
    ensures forall x :: x in RevClusters(L[k..j], M) <==> x in L[k..j]
  {
    assert Distinct(L[k..j]);
    RevClustersLength(L[k..j], M);
    RevClustersDistinct(L[k..j], M);
  }

  /** A slot of `L[a..b]` is not a slot of `L[c..d]` when the ranges do not meet. */
  lemma Apart(L: seq<int>, a: int, b: int, c: int, d: int, x: int)
    requires Distinct(L) && 0 <= a <= b <= |L| && 0 <= c <= d <= |L| && (b <= c || d <= a)
    requires x in L[a..b]
    ensures x !in L[c..d]
  {
    var m := MemberAt(L, a, b, x);
    if x in L[c..d] {
      var q := MemberAt(L, c, d, x);
    }
  }

  /** What the loop reads from slots it has not relinked yet. */
  lemma {:induction false} Pending(nx: seq<int>, pv: seq<int>, nx0: seq<int>, pv0: seq<int>,
                                   L: seq<int>, k: int, j: int, e: int)
    requires Orig(nx0, pv0, L) && Untouched(nx, pv, nx0, pv0, L, k, j)
    requires j <= e < |L|
    ensures 0 <= L[e] < |L|
    ensures nx[L[e]] == (if e + 1 < |L| then L[e + 1] else NIL)
    ensures e > 0 ==> pv[L[e]] == L[e - 1]
    ensures e == 0 ==> pv[L[e]] == NIL
  {
  }

  lemma {:induction false} StartState(nx0: seq<int>, pv0: seq<int>, L: seq<int>, M: set<int>, k: int)
    requires Orig(nx0, pv0, L)
    requires 0 <= k < |L| && L[k] !in M && AllMarks(L[..k], M)
    ensures RevState(nx0, pv0, nx0, pv0, L, M, k, k, [], NIL, L[k])
  {
    assert L[k..k] == [];
  }

  // Base branch: `L[j]` becomes the new head.

  lemma {:induction false} BaseShape(L: seq<int>, M: set<int>, k: int, j: int, R: seq<int>, out: int, tlast: int)
    requires Shape(L, M, k, j, R, out, tlast) && Distinct(L)
    requires j < |L| && L[j] !in M
    ensures Shape(L, M, k, j + 1, [L[j]] + R, L[j], tlast)
    ensures L[j] !in R
    ensures out == NIL || out in L[k..j]
  {
    assert L[k..j + 1] == L[k..j] + [L[j]];
    RevClustersAppendBase(L[k..j], L[j], M);
    RevClustersOfSlice(L, M, k, j);
    if L[j] in R {
      var m := MemberAt(L, k, j, L[j]);
    }
  }

  lemma {:induction false} BaseLinked(nx: seq<int>, pv: seq<int>, R: seq<int>, out: int, b: int)
    requires Linked(nx, pv, R) && Distinct(R) && 0 <= b < |nx| && b !in R
    requires R == [] ==> out == NIL
    requires R != [] ==> out == R[0]
    ensures Linked(nx[b := out], if out != NIL then pv[out := b] else pv, [b] + R)
  {
    var nx1, pv1, R1 := nx[b := out], if out != NIL then pv[out := b] else pv, [b] + R;
    forall m | 0 <= m < |R1| - 1
      ensures nx1[R1[m]] == R1[m + 1]
    {
      if m > 0 {
        assert R1[m] == R[m - 1] && R1[m + 1] == R[m];
      }
    }
    forall m | 0 < m < |R1|
      ensures pv1[R1[m]] == R1[m - 1]
    {
      if m > 1 {
        assert R1[m] == R[m - 1] && R1[m - 1] == R[m - 2];
        assert R[m - 1] != R[0];
      }
    }
    if R != [] {
      assert R[|R| - 1] in R;
    }
  }

  lemma {:induction false} BaseUntouched(nx: seq<int>, pv: seq<int>, nx0: seq<int>, pv0: seq<int>,
                                         L: seq<int>, k: int, j: int, out: int)
    requires Untouched(nx, pv, nx0, pv0, L, k, j) && Distinct(L) && 0 <= k <= j < |L|
    requires out == NIL || out in L[k..j]
    ensures Untouched(nx[L[j] := out], if out != NIL then pv[out := L[j]] else pv, nx0, pv0, L, k, j + 1)
  {
    forall m | 0 <= m < k || j + 1 <= m < |L|
      ensures L[m] != L[j] && (out != NIL ==> L[m] != out)
    {
      if out != NIL {
        var q := MemberAt(L, k, j, out);
      }
    }
  }

  lemma {:induction false} BaseStep(nx: seq<int>, pv: seq<int>, nx0: seq<int>, pv0: seq<int>,
                                    L: seq<int>, M: set<int>, k: int, j: int, R: seq<int>, out: int, tlast: int)
    requires Orig(nx0, pv0, L) && RevState(nx, pv, nx0, pv0, L, M, k, j, R, out, tlast)
    requires j < |L| && L[j] !in M
    ensures out == NIL || 0 <= out < |L|
    ensures 0 <= L[j] < |L| && nx[L[j]] == (if j + 1 < |L| then L[j + 1] else NIL)
    ensures RevState(nx[L[j] := out], if out != NIL then pv[out := L[j]] else pv, nx0, pv0,
                     L, M, k, j + 1, [L[j]] + R, L[j], tlast)
  {
    BaseShape(L, M, k, j, R, out, tlast);
    RevClustersOfSlice(L, M, k, j);
    BaseLinked(nx, pv, R, out, L[j]);
    BaseUntouched(nx, pv, nx0, pv0, L, k, j, out);
    Pending(nx, pv, nx0, pv0, L, k, j, j);
  }

  // Mark branch: the run `L[j..e]` moves right after its base `out`.

  /** A mark run follows a base: `out` is that base, and `R` is it followed by the rest. */
  lemma {:induction false} MarkHead(L: seq<int>, M: set<int>, k: int, j: int, R: seq<int>, out: int, tlast: int)
    requires Shape(L, M, k, j, R, out, tlast)
    requires j < |L| && L[j] in M
    ensures j > k && out == L[j - 1] && |R| == j - k
    ensures R == [L[j - 1]] + RevClusters(L[k..j - 1], M)
  {
    var t, u := L[k..j], L[k..j - 1];
    assert t == u + [L[j - 1]];
    RevClustersAppendBase(u, L[j - 1], M);
    RevClustersLength(t, M);
  }

  /** Reversing up to the end of a mark run puts the run right after its base. */
  lemma {:induction false} MarkRun(L: seq<int>, M: set<int>, k: int, j: int, e: int)
    requires 0 <= k < j < e <= |L| && L[j - 1] !in M && AllMarks(L[j..e], M)
    ensures RevClusters(L[k..e], M) == [L[j - 1]] + L[j..e] + RevClusters(L[k..j - 1], M)
  {
    var t := L[k..j];
    assert L[k..e] == t + L[j..e];
    assert t[|t| - 1] == L[j - 1] && t[..|t| - 1] == L[k..j - 1];
    RevClustersAppendMarks(t, L[j..e], M);
  }

  lemma {:induction false} MarkShape(L: seq<int>, M: set<int>, k: int, j: int, R: seq<int>, out: int, tlast: int,
                                     e: int)
    requires Shape(L, M, k, j, R, out, tlast)
    requires j < e <= |L| && AllMarks(L[j..e], M) && (e < |L| ==> L[e] !in M)
    ensures j > k && out == L[j - 1] && |R| == j - k
    ensures Shape(L, M, k, e, [out] + L[j..e] + R[1..], out, if |R| > 1 then tlast else L[e - 1])
  {
    assert L[j] in M by { assert L[j] == L[j..e][0]; }
    MarkHead(L, M, k, j, R, out, tlast);
    assert R[1..] == RevClusters(L[k..j - 1], M);
    MarkRun(L, M, k, j, e);
    var R2 := [out] + L[j..e] + R[1..];
    assert R2[|R2| - 1] == (if |R| > 1 then tlast else L[e - 1]);
  }

  /** A stretch of `L` outside `L[k..j]` still has its original links. */
  lemma {:induction false} RunChain(nx: seq<int>, pv: seq<int>, nx0: seq<int>, pv0: seq<int>,
                                    L: seq<int>, k: int, j: int, a: int, b: int)
    requires Orig(nx0, pv0, L) && Untouched(nx, pv, nx0, pv0, L, k, j)
    requires 0 <= a <= b <= |L| && (b <= k || j <= a)
    ensures Chain(nx, pv, L[a..b])
  {
    var ms := L[a..b];
    forall m | 0 <= m < |ms| - 1
      ensures nx[ms[m]] == ms[m + 1]
    {
      assert ms[m] == L[a + m] && ms[m + 1] == L[a + m + 1];
    }
    forall m | 0 < m < |ms|
      ensures pv[ms[m]] == ms[m - 1]
    {
      assert ms[m] == L[a + m] && ms[m - 1] == L[a + m - 1];
    }
  }

  lemma {:induction false} MarkLinked(nx: seq<int>, pv: seq<int>, R: seq<int>, ms: seq<int>, p: int)
    requires Linked(nx, pv, R) && R != [] && Chain(nx, pv, ms) && ms != [] && Distinct(ms) && Distinct(R)
    requires forall x :: x in ms ==> x !in R
    requires p == (if |R| > 1 then R[1] else NIL)
    ensures var d, out := ms[|ms| - 1], R[0];
            var pv1 := if p != NIL then pv[p := d] else pv;
            Linked(nx[d := p][out := ms[0]], pv1[ms[0] := out], [out] + ms + R[1..])
  {
    var d, out := ms[|ms| - 1], R[0];
    var pv1 := if p != NIL then pv[p := d] else pv;
    var nx2, pv2 := nx[d := p][out := ms[0]], pv1[ms[0] := out];
    var R2 := [out] + ms + R[1..];
    assert out !in ms;
    assert p != NIL ==> p in R && p != out by { if |R| > 1 { assert R[1] in R; } }
    MarkForward(nx, pv, R, ms, p);
    MarkBackward(nx, pv, R, ms, p);
    assert R2[|R2| - 1] == (if |R| > 1 then R[|R| - 1] else d);
    if |R| > 1 {
      assert R[|R| - 1] in R;
      assert R[|R| - 1] != out;
    }
  }

  /** The `next` links of the list after a run of diacritics `ms` moved behind the head of `R`. */
  lemma MarkForward(nx: seq<int>, pv: seq<int>, R: seq<int>, ms: seq<int>, p: int)
    requires Linked(nx, pv, R) && R != [] && Chain(nx, pv, ms) && ms != [] && Distinct(ms) && Distinct(R)
    requires forall x :: x in ms ==> x !in R
    requires p == (if |R| > 1 then R[1] else NIL)
    ensures var d, out := ms[|ms| - 1], R[0];
            var nx2, R2 := nx[d := p][out := ms[0]], [out] + ms + R[1..];
            forall m :: 0 <= m < |R2| - 1 ==> nx2[R2[m]] == R2[m + 1]
  {
    var d, out := ms[|ms| - 1], R[0];
    var nx2, R2 := nx[d := p][out := ms[0]], [out] + ms + R[1..];
    var len := |ms|;
    assert out !in ms;
    forall m | 0 <= m < |R2| - 1
      ensures nx2[R2[m]] == R2[m + 1]
    {
      if m == 0 {
        assert R2[1] == ms[0];
      } else if m < len {
        assert R2[m] == ms[m - 1] && R2[m + 1] == ms[m];
        assert ms[m - 1] != d;
      } else if m == len {
        assert R2[m] == d && R2[m + 1] == R[1];
      } else {
        assert R2[m] == R[m - len] && R2[m + 1] == R[m - len + 1];
        assert R[m - len] in R;
      }
    }
  }

  /** The `prev` links of the list after a run of diacritics `ms` moved behind the head of `R`. */
  lemma MarkBackward(nx: seq<int>, pv: seq<int>, R: seq<int>, ms: seq<int>, p: int)
    requires Linked(nx, pv, R) && R != [] && Chain(nx, pv, ms) && ms != [] && Distinct(ms) && Distinct(R)
    requires forall x :: x in ms ==> x !in R
    requires p == (if |R| > 1 then R[1] else NIL)
    ensures var d, out := ms[|ms| - 1], R[0];
            var pv1 := if p != NIL then pv[p := d] else pv;
            var pv2, R2 := pv1[ms[0] := out], [out] + ms + R[1..];
            forall m :: 0 < m < |R2| ==> pv2[R2[m]] == R2[m - 1]
  {
    var d, out := ms[|ms| - 1], R[0];
    var pv1 := if p != NIL then pv[p := d] else pv;
    var pv2, R2 := pv1[ms[0] := out], [out] + ms + R[1..];
    var len := |ms|;
    assert out !in ms;
    assert p != NIL ==> p in R && p !in ms by { if |R| > 1 { assert R[1] in R; } }
    forall m | 0 < m < |R2|
      ensures pv2[R2[m]] == R2[m - 1]
    {
      if m == 1 {
        assert R2[1] == ms[0];
      } else if m <= len {
        assert R2[m] == ms[m - 1] && R2[m - 1] == ms[m - 2];
        assert ms[m - 1] != ms[0];
        assert ms[m - 1] in ms;
      } else if m == len + 1 {
        assert R2[m] == R[1] && R2[m - 1] == d;
      } else {
        assert R2[m] == R[m - len] && R2[m - 1] == R[m - len - 1];
        assert R[m - len] in R;
        assert R[m - len] != R[1];
      }
    }
  }

  lemma {:induction false} MarkUntouched(nx: seq<int>, pv: seq<int>, nx0: seq<int>, pv0: seq<int>,
                                         L: seq<int>, k: int, j: int, e: int, out: int, p: int)
    requires Untouched(nx, pv, nx0, pv0, L, k, j) && Distinct(L) && 0 <= k < j < e <= |L|
    requires out in L[k..j] && (p == NIL || p in L[k..j])
    ensures var d := L[e - 1];
            var pv1 := if p != NIL then pv[p := d] else pv;
            Untouched(nx[d := p][out := L[j]], pv1[L[j] := out], nx0, pv0, L, k, e)
  {
    forall m | 0 <= m < k || e <= m < |L|
      ensures L[m] != L[e - 1] && L[m] != L[j] && L[m] != out && (p != NIL ==> L[m] != p)
    {
      var q := MemberAt(L, k, j, out);
      if p != NIL {
        var q2 := MemberAt(L, k, j, p);
      }
    }
  }

  lemma {:induction false} MarkPre(nx: seq<int>, pv: seq<int>, nx0: seq<int>, pv0: seq<int>,
                                   L: seq<int>, M: set<int>, k: int, j: int, R: seq<int>, out: int, tlast: int,
                                   e: int)
    requires Orig(nx0, pv0, L) && RevState(nx, pv, nx0, pv0, L, M, k, j, R, out, tlast)
    requires j < e <= |L| && L[j] in M
    ensures j > k && |R| == j - k && R != [] && out == R[0]
    ensures out in L[k..j]
    ensures 0 <= out < |nx| && nx[out] == (if |R| > 1 then R[1] else NIL)
    ensures nx[out] != NIL ==> nx[out] in L[k..j]
    ensures Distinct(R) && Distinct(L[j..e]) && (forall x :: x in L[j..e] ==> x !in R)
    ensures Chain(nx, pv, L[j..e])
  {
    RevClustersOfSlice(L, M, k, j);
    assert j > k;
    assert R[0] in R;
    if |R| > 1 {
      assert R[1] in R;
    }
    forall x | x in L[j..e]
      ensures x !in R
    {
      Apart(L, j, e, k, j, x);
    }
    RunChain(nx, pv, nx0, pv0, L, k, j, j, e);
  }

  /**
   * The mark branch: what it reads before relinking, and the state after it
   * relinks `out -> L[j..e] -> p`, where `p` was the slot after `out`.
   */
  lemma {:induction false} MarkStep(nx: seq<int>, pv: seq<int>, nx0: seq<int>, pv0: seq<int>,
                                    L: seq<int>, M: set<int>, k: int, j: int, R: seq<int>, out: int, tlast: int,
                                    e: int)
    requires Orig(nx0, pv0, L) && RevState(nx, pv, nx0, pv0, L, M, k, j, R, out, tlast)
    requires j < e <= |L| && AllMarks(L[j..e], M) && (e < |L| ==> L[e] !in M)
    ensures j > k && 0 <= out < |L| && 0 <= L[j] < |L| && 0 <= L[e - 1] < |L|
    ensures nx[out] == NIL || 0 <= nx[out] < |L|
    ensures nx[L[e - 1]] == (if e < |L| then L[e] else NIL)
    ensures e < |L| ==> pv[L[e]] == L[e - 1]
    ensures var d, p := L[e - 1], nx[out];
            var pv1 := if p != NIL then pv[p := d] else pv;
            var tl := if p != NIL then tlast else d;
            RevState(nx[d := p][out := L[j]], pv1[L[j] := out], nx0, pv0,
                     L, M, k, e, [out] + L[j..e] + R[1..], out, tl)
  {
    assert L[j] in M by { assert L[j] == L[j..e][0]; }
    MarkPre(nx, pv, nx0, pv0, L, M, k, j, R, out, tlast, e);
    MarkShape(L, M, k, j, R, out, tlast, e);
    MarkLinked(nx, pv, R, L[j..e], nx[out]);
    MarkUntouched(nx, pv, nx0, pv0, L, k, j, e, out, nx[out]);
    Pending(nx, pv, nx0, pv0, L, k, j, e - 1);
    if e < |L| {
      Pending(nx, pv, nx0, pv0, L, k, j, e);
    }
  }

  /** At the end of the loop: the untouched prefix `L[..k]` and the reversed rest `R`. */
  lemma {:induction false} FinishParts(nx: seq<int>, pv: seq<int>, nx0: seq<int>, pv0: seq<int>,
                                       L: seq<int>, M: set<int>, k: int, R: seq<int>, out: int, tlast: int)
    requires Orig(nx0, pv0, L) && RevState(nx, pv, nx0, pv0, L, M, k, |L|, R, out, tlast)
    ensures 0 <= k < |L| && R != [] && Distinct(R) && Linked(nx, pv, R) && out == R[0] && tlast == R[|R| - 1]
    ensures Chain(nx, pv, L[..k]) && Distinct(L[..k]) && (forall x :: x in L[..k] ==> x !in R)
    ensures k > 0 ==> pv[L[0]] == NIL && L[..k][0] == L[0] && L[..k][k - 1] == L[k - 1]
    ensures L[..k] + R == Reordered(L, M)
  {
    FinishOrder(L, M, k, R);
    RunChain(nx, pv, nx0, pv0, L, k, |L|, 0, k);
  }

  /** The leading diacritics and the reversed clusters are apart, and together they are the reordering. */
  lemma FinishOrder(L: seq<int>, M: set<int>, k: int, R: seq<int>)
    requires Distinct(L) && 0 <= k < |L| && L[k] !in M && AllMarks(L[..k], M)
    requires R == RevClusters(L[k..|L|], M)
    ensures |R| == |L| - k && Distinct(R) && Distinct(L[..k])
    ensures forall x :: x in L[..k] ==> x !in R
    ensures L[..k] + R == Reordered(L, M)
  {
    RevClustersOfSlice(L, M, k, |L|);
    assert L[..k] == L[0..k];
    forall x | x in L[..k]
      ensures x !in R
    {
      Apart(L, 0, k, k, |L|, x);
    }
    FirstBaseIs(L, M, k);
    assert L[k..|L|] == L[k..];
  }

  /** Closing the loop: the reordered list is well formed once hooked to `tfirst`. */
  lemma {:induction false} FinishStep(nx: seq<int>, pv: seq<int>, nx0: seq<int>, pv0: seq<int>,
                                      L: seq<int>, M: set<int>, k: int, R: seq<int>, out: int, tlast: int,
                                      tfirst: int)
    requires Orig(nx0, pv0, L) && RevState(nx, pv, nx0, pv0, L, M, k, |L|, R, out, tlast)
    requires tfirst == (if k > 0 then L[k - 1] else NIL)
    ensures 0 <= out < |L| && (tfirst == NIL || 0 <= tfirst < |L|)
    ensures var nx1 := if tfirst != NIL then nx[tfirst := out] else nx;
            var first := if tfirst != NIL then L[0] else out;
            IsList(nx1, pv[out := tfirst], Reordered(L, M), first, tlast)
    ensures Distinct(Reordered(L, M)) && multiset(Reordered(L, M)) == multiset(L)
  {
    FinishParts(nx, pv, nx0, pv0, L, M, k, R, out, tlast);
    ReorderedPermutes(L, M);
    FinishLinked(nx, pv, L[..k], R, tfirst);
  }

  lemma {:induction false} FinishLinked(nx: seq<int>, pv: seq<int>, P: seq<int>, R: seq<int>, tfirst: int)
    requires Chain(nx, pv, P) && Linked(nx, pv, R) && R != [] && Distinct(R) && Distinct(P)
    requires forall x :: x in P ==> x !in R
    requires P != [] ==> pv[P[0]] == NIL && tfirst == P[|P| - 1]
    requires P == [] ==> tfirst == NIL
    ensures var out := R[0];
            var nx1 := if tfirst != NIL then nx[tfirst := out] else nx;
            var first := if tfirst != NIL then P[0] else out;
            IsList(nx1, pv[out := tfirst], P + R, first, R[|R| - 1])
  {
    var out := R[0];
    var nx1 := if tfirst != NIL then nx[tfirst := out] else nx;
    var pv1 := pv[out := tfirst];
    var N := P + R;
    var k := |P|;
    assert out in R;
    assert P != [] ==> tfirst in P;
    forall m | 0 <= m < |N| - 1
      ensures nx1[N[m]] == N[m + 1]
    {
      if m < k - 1 {
        assert N[m] == P[m] && N[m + 1] == P[m + 1];
        assert P[m] in P && P[m] != P[k - 1];
      } else if m == k - 1 {
        assert N[m] == tfirst && N[m + 1] == out;
      } else {
        assert N[m] == R[m - k] && N[m + 1] == R[m - k + 1];
        assert R[m - k] in R;
      }
    }
    forall m | 0 < m < |N|
      ensures pv1[N[m]] == N[m - 1]
    {
      if m < k {
        assert N[m] == P[m] && N[m - 1] == P[m - 1];
        assert P[m] in P;
      } else if m > k {
        assert N[m] == R[m - k] && N[m - 1] == R[m - k - 1];
        assert R[m - k] in R;
        assert R[m - k] != out;
      }
    }
    assert N[|N| - 1] == R[|R| - 1];
    assert R[|R| - 1] in R;
    if k > 0 {
      assert N[0] == P[0];
      assert P[0] in P;
    }
  }

  lemma {:induction false} FirstBaseIs(L: seq<int>, M: set<int>, k: int)
    requires 0 <= k <= |L| && AllMarks(L[..k], M) && (k < |L| ==> L[k] !in M)
    ensures FirstBase(L, M) == k
    decreases k
  {
    if k > 0 {
      assert L[0] in M by { assert L[0] == L[..k][0]; }
      var t := L[1..][..k - 1];
      assert AllMarks(t, M) by {
        forall q | 0 <= q < |t|
          ensures t[q] in M
        {
          assert t[q] == L[..k][q + 1];
        }
      }
      FirstBaseIs(L[1..], M, k - 1);
    }
  }

  /** Appending slot `n` to a list that holds the slots `0..n` makes it hold `0..n+1`. */
  lemma AppendCovers(L: seq<int>, n: int)
    requires forall x :: 0 <= x < n ==> x in L
    ensures forall x :: 0 <= x < n + 1 ==> x in L + [n]
  {
    forall x | 0 <= x < n + 1
      ensures x in L + [n]
    {
      if x < n {
        assert x in L;
      } else {
        assert (L + [n])[|L|] == x;
      }
    }
  }

  lemma {:induction false} AppendKeepsList(nx: seq<int>, pv: seq<int>, L: seq<int>, first: int, last: int,
                                           nx1: seq<int>, pv1: seq<int>)
    requires IsList(nx, pv, L, first, last) && Distinct(L) && |L| == |nx|
    requires |nx1| == |nx| + 1 && |pv1| == |nx| + 1
    requires nx1[|nx|] == NIL && pv1[|nx|] == last
    requires forall x :: 0 <= x < |nx| && x != last ==> nx1[x] == nx[x]
    requires last != NIL ==> nx1[last] == |nx|
    requires forall x :: 0 <= x < |nx| ==> pv1[x] == pv[x]
    ensures IsList(nx1, pv1, L + [|nx|], if first == NIL then |nx| else first, |nx|)
    ensures Distinct(L + [|nx|])
  {
    var id := |nx|;
    var L1 := L + [id];
    forall m | 0 <= m < |L1| - 1
      ensures nx1[L1[m]] == L1[m + 1]
    {
      if m < |L| - 1 {
        assert L[m] != last;
      }
    }
    forall m | 0 < m < |L1|
      ensures pv1[L1[m]] == L1[m - 1]
    {
    }
    if L == [] {
      assert first == NIL;
    }
    forall a, b | 0 <= a < b < |L1|
      ensures L1[a] != L1[b]
    {
      if b == |L| { assert L1[a] == L[a]; }
    }
  }

  /** The reordering of a list that holds each of the slots `0..n` once holds each of them once too. */
  lemma ReorderedCovers(L: seq<int>, M: set<int>, n: int)
    requires Distinct(L) && |L| == n && forall x :: 0 <= x < n ==> x in L
    ensures Distinct(Reordered(L, M)) && |Reordered(L, M)| == n
    ensures forall x :: 0 <= x < n ==> x in Reordered(L, M)
  {
    var N := Reordered(L, M);
    ReorderedPermutes(L, M);
    assert |N| == |multiset(N)| == |multiset(L)| == |L|;
    forall x | 0 <= x < n
      ensures x in N
    {
      SameElements(L, N, x);
    }
  }

  lemma SameElements(L: seq<int>, N: seq<int>, x: int)
    requires multiset(N) == multiset(L) && x in L
    ensures x in N
  {
    assert x in multiset(L);
  }
}

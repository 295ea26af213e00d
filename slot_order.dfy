// The order in which Graphite's `reverseSlots` leaves a slot list, stated on
// sequences of slot identities.  A "mark" is a slot whose bidi class is 16
// (a diacritic); a cluster is a non-mark slot (its base) together with the
// marks that follow it.  Reversal keeps the leading marks in front and then
// lists the clusters in reverse order, each cluster keeping its own order.

module SlotOrder {

  predicate Distinct(s: seq<int>)
  {
    forall i, j :: 0 <= i < j < |s| ==> s[i] != s[j]
  }

  predicate AllMarks(s: seq<int>, marks: set<int>)
  {
    forall k :: 0 <= k < |s| ==> s[k] in marks
  }

  /** Index of the last base of `s`, or 0 when `s` holds no base. */
  function LastBase(s: seq<int>, marks: set<int>): (i: nat)
    ensures s == [] ==> i == 0
    ensures s != [] ==> i < |s|
    ensures forall k :: i < k < |s| ==> s[k] in marks
    ensures (i < |s| && s[i] !in marks) || AllMarks(s, marks)
    ensures i < |s| && s[i] in marks ==> i == 0 && AllMarks(s, marks)
  {
    if s == [] then 0
    else if s[|s| - 1] !in marks then |s| - 1
    else LastBase(s[..|s| - 1], marks)
  }

  /** Index of the first base of `s`, or |s| when it holds none. */
  function FirstBase(s: seq<int>, marks: set<int>): (k: nat)
    ensures k <= |s|
    ensures AllMarks(s[..k], marks)
    ensures k < |s| ==> s[k] !in marks
  {
    if s == [] || s[0] !in marks then 0
    else
      var k := FirstBase(s[1..], marks);
      assert s[..k + 1] == [s[0]] + s[1..][..k];
      k + 1
  }

  /** The clusters of `s` in reverse order, each cluster left as it was. */
  function RevClusters(s: seq<int>, marks: set<int>): seq<int>
    decreases |s|
  {
    if s == [] then []
    else
      var i := LastBase(s, marks);
      s[i..] + RevClusters(s[..i], marks)
  }

  /** The order `reverseSlots` produces from the order `s`. */
  function Reordered(s: seq<int>, marks: set<int>): seq<int>
  {
    var k := FirstBase(s, marks);
    s[..k] + RevClusters(s[k..], marks)
  }

  /** The bases of `s`, in order. */
  function Bases(s: seq<int>, marks: set<int>): seq<int>
  {
    if s == [] then []
    else if s[|s| - 1] in marks then Bases(s[..|s| - 1], marks)
    else Bases(s[..|s| - 1], marks) + [s[|s| - 1]]
  }

  function Reverse(s: seq<int>): seq<int>
  {
    if s == [] then [] else [s[|s| - 1]] + Reverse(s[..|s| - 1])
  }

  // ---------------------------------------------------------------------
  // Step lemmas used by the reversal loop
  // ---------------------------------------------------------------------

  lemma {:induction false} LastBaseSkipsMarks(t: seq<int>, ms: seq<int>, marks: set<int>)
    requires t != [] && t[|t| - 1] !in marks
    requires AllMarks(ms, marks)
    ensures LastBase(t + ms, marks) == |t| - 1
    decreases |ms|
  {
    if ms != [] {
      var u := t + ms;
      assert u[..|u| - 1] == t + ms[..|ms| - 1];
      LastBaseSkipsMarks(t, ms[..|ms| - 1], marks);
    } else {
      assert t + ms == t;
    }
  }

  /** Appending a base starts a new cluster, which goes to the front. */
  lemma {:induction false} RevClustersAppendBase(t: seq<int>, b: int, marks: set<int>)
    requires b !in marks
    ensures RevClusters(t + [b], marks) == [b] + RevClusters(t, marks)
  {
    var u := t + [b];
    assert LastBase(u, marks) == |t|;
    assert u[|t|..] == [b];
    assert u[..|t|] == t;
  }

  /** Marks appended right after a base join that base's cluster. */
  lemma {:induction false} RevClustersAppendMarks(t: seq<int>, ms: seq<int>, marks: set<int>)
    requires t != [] && t[|t| - 1] !in marks
    requires AllMarks(ms, marks)
    ensures RevClusters(t + ms, marks) == [t[|t| - 1]] + ms + RevClusters(t[..|t| - 1], marks)
  {
    var u := t + ms;
    LastBaseSkipsMarks(t, ms, marks);
    assert u[|t| - 1..] == [t[|t| - 1]] + ms;
    assert u[..|t| - 1] == t[..|t| - 1];
  }

  // ---------------------------------------------------------------------
  // Elements, distinctness and shape of the reordered list
  // ---------------------------------------------------------------------

  lemma {:induction false} RevClustersLength(s: seq<int>, marks: set<int>)
    ensures |RevClusters(s, marks)| == |s|
    decreases |s|
  {
    if s != [] {
      RevClustersLength(s[..LastBase(s, marks)], marks);
    }
  }

  lemma {:induction false} RevClustersElements(s: seq<int>, marks: set<int>)
    ensures multiset(RevClusters(s, marks)) == multiset(s)
    decreases |s|
  {
    if s != [] {
      var i := LastBase(s, marks);
      RevClustersElements(s[..i], marks);
      assert s == s[..i] + s[i..];
    }
  }

  lemma {:induction false} MemberOfSlice(s: seq<int>, i: int, j: int, x: int)
    requires 0 <= i <= j <= |s| && x in s[i..j]
    ensures exists k :: i <= k < j && s[k] == x
  {
    var k :| 0 <= k < j - i && s[i..j][k] == x;
    assert s[i + k] == x;
  }

  lemma {:induction false} RevClustersDistinct(s: seq<int>, marks: set<int>)
    requires Distinct(s)
    ensures Distinct(RevClusters(s, marks))
    ensures forall x :: x in RevClusters(s, marks) <==> x in s
    decreases |s|
  {
    if s != [] {
      var i := LastBase(s, marks);
      var a, b := s[i..], RevClusters(s[..i], marks);
      assert Distinct(s[..i]);
      RevClustersDistinct(s[..i], marks);
      forall x | x in a
        ensures x !in b
      {
        MemberOfSlice(s, i, |s|, x);
      }
      DistinctConcat(a, b);
      forall x
        ensures x in a + b <==> x in s
      {
        assert s == s[..i] + a;
      }
    }
  }

  lemma {:induction false} DistinctConcat(a: seq<int>, b: seq<int>)
    requires Distinct(a) && Distinct(b)
    requires forall x :: x in a ==> x !in b
    ensures Distinct(a + b)
  {
    forall i, j | 0 <= i < j < |a + b|
      ensures (a + b)[i] != (a + b)[j]
    {
      if i < |a| && j >= |a| {
        assert (a + b)[i] in a;
        assert (a + b)[j] == b[j - |a|];
      }
    }
  }

  lemma {:induction false} RevClustersHead(s: seq<int>, marks: set<int>)
    requires s != [] && s[0] !in marks
    ensures RevClusters(s, marks) != [] && RevClusters(s, marks)[0] !in marks
  {
    var i := LastBase(s, marks);
    assert s[i] !in marks;
  }

  /** A cluster's only base is its first slot. */
  lemma {:induction false} LastBaseOfCluster(k: seq<int>, marks: set<int>)
    requires k != [] && k[0] !in marks && AllMarks(k[1..], marks)
    ensures LastBase(k, marks) == 0
  {
  }

  lemma {:induction false} LastBaseOfConcat(k: seq<int>, q: seq<int>, marks: set<int>)
    requires q != [] && q[LastBase(q, marks)] !in marks
    ensures LastBase(k + q, marks) == |k| + LastBase(q, marks)
  {
    var i := LastBase(q, marks);
    var head, tail := k + q[..i + 1], q[i + 1..];
    assert head + tail == k + q by {
      assert q[..i + 1] + tail == q;
    }
    assert head[|head| - 1] == q[i];
    assert AllMarks(tail, marks) by {
      forall m | 0 <= m < |tail|
        ensures tail[m] in marks
      {
        assert tail[m] == q[i + 1 + m];
      }
    }
    LastBaseSkipsMarks(head, tail, marks);
  }

  /** Putting one cluster in front of a list puts it at the back of the reversal. */
  lemma {:induction false} RevClustersPrepend(k: seq<int>, q: seq<int>, marks: set<int>)
    requires k != [] && k[0] !in marks && AllMarks(k[1..], marks)
    requires q == [] || q[0] !in marks
    ensures RevClusters(k + q, marks) == RevClusters(q, marks) + k
    decreases |q|
  {
    if q == [] {
      assert k + q == k;
      LastBaseOfCluster(k, marks);
      assert k[..0] == [];
    } else {
      var i := LastBase(q, marks);
      var p := q[..i];
      PeelLastCluster(k, q, marks);
      assert p == [] || p[0] == q[0];
      RevClustersPrepend(k, p, marks);
      assert RevClusters(q, marks) == q[i..] + RevClusters(p, marks);
    }
  }

  /** One step of `RevClusters`: the last cluster, then the reversal of the rest. */
  lemma RevClustersUnfold(s: seq<int>, marks: set<int>)
    requires s != []
    ensures RevClusters(s, marks) == s[LastBase(s, marks)..] + RevClusters(s[..LastBase(s, marks)], marks)
  {
  }

  /** The last cluster of `k + q` is the last cluster of `q`, when `q` holds a base. */
  lemma PeelLastCluster(k: seq<int>, q: seq<int>, marks: set<int>)
    requires q != [] && q[0] !in marks
    ensures RevClusters(k + q, marks)
         == q[LastBase(q, marks)..] + RevClusters(k + q[..LastBase(q, marks)], marks)
  {
    var i := LastBase(q, marks);
    var u, j := k + q, |k| + i;
    assert u == (k + q[..i]) + q[i..] by {
      assert q == q[..i] + q[i..];
    }
    assert u[j..] == q[i..] && u[..j] == k + q[..i];
    LastBaseOfConcat(k, q, marks);
    RevClustersUnfold(u, marks);
  }

  /** Reversing the clusters twice gives back the list, when it starts with a base. */
  lemma {:induction false} RevClustersInvolutive(s: seq<int>, marks: set<int>)
    requires s == [] || s[0] !in marks
    ensures RevClusters(RevClusters(s, marks), marks) == s
    decreases |s|
  {
    if s != [] {
      var i := LastBase(s, marks);
      var k, p := s[i..], s[..i];
      assert k[0] !in marks;
      assert AllMarks(k[1..], marks);
      if p != [] { RevClustersHead(p, marks); }
      RevClustersPrepend(k, RevClusters(p, marks), marks);
      RevClustersInvolutive(p, marks);
      assert p + k == s;
    }
  }

  /** Two reversals restore the original order. */
  lemma {:induction false} ReorderedInvolutive(s: seq<int>, marks: set<int>)
    ensures Reordered(Reordered(s, marks), marks) == s
  {
    var k := FirstBase(s, marks);
    var m, rest := s[..k], s[k..];
    var r := RevClusters(rest, marks);
    var t := m + r;
    assert Reordered(s, marks) == t;
    assert r == [] || r[0] !in marks by {
      if k < |s| { RevClustersHead(rest, marks); }
      else { assert rest == []; }
    }
    assert FirstBase(t, marks) == k by {
      FirstBaseAfterMarks(m, r, marks);
    }
    assert Reordered(t, marks) == m + RevClusters(r, marks) by {
      assert t[..k] == m && t[k..] == r;
    }
    RevClustersInvolutive(rest, marks);
    assert m + rest == s;
  }

  lemma {:induction false} FirstBaseAfterMarks(m: seq<int>, r: seq<int>, marks: set<int>)
    requires AllMarks(m, marks)
    requires r == [] || r[0] !in marks
    ensures FirstBase(m + r, marks) == |m|
    decreases |m|
  {
    if m == [] {
      assert m + r == r;
    } else {
      assert (m + r)[1..] == m[1..] + r;
      FirstBaseAfterMarks(m[1..], r, marks);
    }
  }

  /** With 0 or 1 slots there is nothing to reorder. */
  lemma {:induction false} ReorderedShort(s: seq<int>, marks: set<int>)
    requires |s| <= 1
    ensures Reordered(s, marks) == s
  {
    if |s| == 1 && s[0] !in marks {
      assert FirstBase(s, marks) == 0;
      assert LastBase(s, marks) == 0;
      assert s[..0] == [] && s[0..] == s;
      assert RevClusters(s, marks) == s[0..] + RevClusters(s[..0], marks);
    }
  }

  /** Reordering only moves slots. */
  lemma {:induction false} ReorderedPermutes(s: seq<int>, marks: set<int>)
    ensures |Reordered(s, marks)| == |s|
    ensures multiset(Reordered(s, marks)) == multiset(s)
    ensures Distinct(s) ==> Distinct(Reordered(s, marks))
  {
    var k := FirstBase(s, marks);
    RevClustersLength(s[k..], marks);
    RevClustersElements(s[k..], marks);
    assert s[..k] + s[k..] == s;
    if Distinct(s) {
      assert Distinct(s[..k]) && Distinct(s[k..]);
      RevClustersDistinct(s[k..], marks);
      forall x | x in s[..k]
        ensures x !in RevClusters(s[k..], marks)
      {
        MemberOfSlice(s, 0, k, x);
        if x in s[k..] { MemberOfSlice(s, k, |s|, x); }
      }
      DistinctConcat(s[..k], RevClusters(s[k..], marks));
    }
  }

  // ---------------------------------------------------------------------
  // The bases are exactly reversed
  // ---------------------------------------------------------------------

  lemma {:induction false} BasesConcat(a: seq<int>, b: seq<int>, marks: set<int>)
    ensures Bases(a + b, marks) == Bases(a, marks) + Bases(b, marks)
    decreases |b|
  {
    if b == [] {
      assert a + b == a;
    } else {
      assert (a + b)[..|a + b| - 1] == a + b[..|b| - 1];
      BasesConcat(a, b[..|b| - 1], marks);
    }
  }

  lemma {:induction false} BasesOfMarks(s: seq<int>, marks: set<int>)
    requires AllMarks(s, marks)
    ensures Bases(s, marks) == []
    decreases |s|
  {
    if s != [] {
      BasesOfMarks(s[..|s| - 1], marks);
    }
  }

  lemma {:induction false} ReverseConcat(a: seq<int>, b: seq<int>)
    ensures Reverse(a + b) == Reverse(b) + Reverse(a)
    decreases |b|
  {
    if b == [] {
      assert a + b == a;
    } else {
      assert (a + b)[..|a + b| - 1] == a + b[..|b| - 1];
      ReverseConcat(a, b[..|b| - 1]);
    }
  }

  lemma {:induction false} RevClustersBases(s: seq<int>, marks: set<int>)
    ensures Bases(RevClusters(s, marks), marks) == Reverse(Bases(s, marks))
    decreases |s|
  {
    if s != [] {
      var i := LastBase(s, marks);
      RevClustersBases(s[..i], marks);
      BasesConcat(s[i..], RevClusters(s[..i], marks), marks);
      BasesConcat(s[..i], s[i..], marks);
      assert s[..i] + s[i..] == s;
      if s[i] in marks {
        BasesOfMarks(s, marks);
        assert s[..i] == [];
      } else {
        assert s[i..] == [s[i]] + s[i + 1..];
        BasesConcat([s[i]], s[i + 1..], marks);
        BasesOfMarks(s[i + 1..], marks);
        assert Bases([s[i]], marks) == [s[i]] by {
          assert [s[i]][..0] == [];
        }
        ReverseConcat(Bases(s[..i], marks), [s[i]]);
        assert Reverse([s[i]]) == [s[i]] by {
          assert [s[i]][..0] == [];
        }
      }
    }
  }

  /** The bases of the reordered list are the original bases in reverse order. */
  lemma {:induction false} ReorderedBases(s: seq<int>, marks: set<int>)
    ensures Bases(Reordered(s, marks), marks) == Reverse(Bases(s, marks))
  {
    var k := FirstBase(s, marks);
    var m, t := s[..k], s[k..];
    var r := RevClusters(t, marks);
    assert m + t == s;
    BasesOfMarks(m, marks);
    BasesConcat(m, r, marks);
    BasesConcat(m, t, marks);
    RevClustersBases(t, marks);
    assert Bases(m + r, marks) == Reverse(Bases(t, marks));
    assert Bases(s, marks) == Bases(t, marks);
  }
}

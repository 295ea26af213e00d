// Pango's ellipsizer: a gap grows from a centre point, one span of
// clusters at a time, until the line with an ellipsis in place of the gap
// fits; the line's runs are then rebuilt around the ellipsis.

module PangoEllipsize {
  import opened Common

  datatype EllipsizeMode = NoEllipsis | AtStart | InMiddle | AtEnd

  /**
   * A cluster of glyphs: its width, the characters it covers, and whether
   * an ellipsis may begin before it or end after it (the cursor positions
   * of the layout's logical attributes).
   */
  datatype Cluster = Cluster(width: int, startIndex: int, endIndex: int, boundaryBefore: bool, boundaryAfter: bool)

  /** What the ellipsizer reads of the item of a run: its number of characters and its bidi level. */
  datatype RunItem = RunItem(length: int, level: int8)

  /**
   * A line in logical order: the item of each run, the clusters of all runs
   * one after the other, and where each run's clusters begin (run `i` holds
   * the clusters from `bounds[i]` up to `bounds[i + 1]`).
   */
  datatype Line = Line(startIndex: int, runs: seq<RunItem>, clusters: seq<Cluster>, bounds: seq<int>)

  /** Every run holds at least one cluster and the runs follow one another. */
  predicate WellFormed(l: Line)
  {
    && |l.bounds| == |l.runs| + 1
    && l.bounds[0] == 0 && l.bounds[|l.runs|] == |l.clusters|
    && (forall i :: 0 <= i <= |l.runs| ==> 0 <= l.bounds[i] <= |l.clusters|)
    && (forall i :: 0 <= i < |l.runs| ==> RunSize(l, i) > 0)
  }

  /** The number of clusters of run `i`. */
  function RunSize(l: Line, i: int): int
    requires 0 <= i < |l.bounds| - 1
  {
    l.bounds[i + 1] - l.bounds[i]
  }

  lemma RunNonEmpty(l: Line, i: int)
    requires WellFormed(l) && 0 <= i < |l.runs|
    ensures l.bounds[i] < l.bounds[i + 1]
  {
    assert RunSize(l, i) > 0;
  }

  lemma {:induction false} BoundsBelow(l: Line, i: int, j: int)
    requires WellFormed(l) && 0 <= i <= j <= |l.runs|
    ensures l.bounds[i] + (j - i) <= l.bounds[j]
    decreases j - i
  {
    if i < j {
      RunNonEmpty(l, i);
      BoundsBelow(l, i + 1, j);
    }
  }

  // ---------------------------------------------------------------- widths

  /** The total width of clusters `a` up to `b`. */
  function Width(cs: seq<Cluster>, a: int, b: int): int
    requires 0 <= a && b <= |cs|
    decreases b - a
  {
    if b <= a then 0 else Width(cs, a, b - 1) + cs[b - 1].width
  }

  lemma {:induction false} WidthSplit(cs: seq<Cluster>, a: int, b: int, c: int)
    requires 0 <= a <= b <= c <= |cs|
    ensures Width(cs, a, b) + Width(cs, b, c) == Width(cs, a, c)
    decreases c - b
  {
    if b < c {
      WidthSplit(cs, a, b, c - 1);
    }
  }

  /** The x position of cluster `p`: the width of the clusters before it. */
  function X(l: Line, p: int): int
    requires 0 <= p <= |l.clusters|
  {
    Width(l.clusters, 0, p)
  }

  lemma XStep(l: Line, p: int)
    requires 0 <= p < |l.clusters|
    ensures X(l, p + 1) == X(l, p) + l.clusters[p].width
  {
  }

  /** The width of run `i`, the sum of the widths of its glyphs. */
  function RunWidth(l: Line, i: int): int
    requires WellFormed(l) && 0 <= i < |l.runs|
  {
    Width(l.clusters, l.bounds[i], l.bounds[i + 1])
  }

  lemma RunX(l: Line, i: int)
    requires WellFormed(l) && 0 <= i < |l.runs|
    ensures X(l, l.bounds[i]) + RunWidth(l, i) == X(l, l.bounds[i + 1])
  {
    RunNonEmpty(l, i);
    WidthSplit(l.clusters, 0, l.bounds[i], l.bounds[i + 1]);
  }

  /** The widths of the first `n` runs added up. */
  function RunsWidth(l: Line, n: int): int
    requires WellFormed(l) && 0 <= n <= |l.runs|
  {
    if n == 0 then 0 else RunsWidth(l, n - 1) + RunWidth(l, n - 1)
  }

  /** The first `n` runs are as wide as their clusters. */
  lemma {:induction false} RunsWidthX(l: Line, n: int)
    requires WellFormed(l) && 0 <= n <= |l.runs|
    ensures RunsWidth(l, n) == X(l, l.bounds[n])
  {
    if n > 0 {
      RunsWidthX(l, n - 1);
      RunX(l, n - 1);
    }
  }

  /** The characters of the first `n` runs. */
  function Lengths(runs: seq<RunItem>): int
  {
    if runs == [] then 0 else Lengths(runs[..|runs| - 1]) + runs[|runs| - 1].length
  }

  // ---------------------------------------------------------------- line iterators

  /** A position in the line: a run and one of its clusters (by its index in the line). */
  datatype LineIter = LineIter(run: int, cluster: int)

  /** `it` is at a cluster of its run. */
  predicate ValidIter(l: Line, it: LineIter)
  {
    && 0 <= it.run < |l.runs| && |l.bounds| == |l.runs| + 1
    && 0 <= l.bounds[it.run] <= it.cluster < l.bounds[it.run + 1] <= |l.clusters|
  }

  /** `lineIterNextCluster`: one cluster on, into the next run when this one is done; false at the end of the line. */
  function NextCluster(l: Line, it: LineIter): (r: (bool, LineIter))
    requires WellFormed(l) && ValidIter(l, it)
    ensures ValidIter(l, r.1)
    ensures r.0 <==> it.cluster + 1 < |l.clusters|
    ensures r.0 ==> r.1.cluster == it.cluster + 1
    ensures !r.0 ==> r.1 == it
  {
    if it.cluster + 1 < l.bounds[it.run + 1] then (true, LineIter(it.run, it.cluster + 1))
    else if it.run == |l.runs| - 1 then (false, it)
    else
      RunNonEmpty(l, it.run + 1);
      (true, LineIter(it.run + 1, it.cluster + 1))
  }

  /** `lineIterPrevCluster`: one cluster back, into the previous run when this one is done; false at the start of the line. */
  function PrevCluster(l: Line, it: LineIter): (r: (bool, LineIter))
    requires WellFormed(l) && ValidIter(l, it)
    ensures ValidIter(l, r.1)
    ensures r.0 <==> it.cluster > 0
    ensures r.0 ==> r.1.cluster == it.cluster - 1
    ensures !r.0 ==> r.1 == it
  {
    if it.cluster > l.bounds[it.run] then (true, LineIter(it.run, it.cluster - 1))
    else if it.run == 0 then (false, it)
    else
      RunNonEmpty(l, it.run - 1);
      (true, LineIter(it.run - 1, it.cluster - 1))
  }

  /** An iterator is fixed by its cluster. */
  lemma IterOfCluster(l: Line, a: LineIter, b: LineIter)
    requires WellFormed(l) && ValidIter(l, a) && ValidIter(l, b) && a.cluster <= b.cluster
    ensures a.run <= b.run
    ensures a.cluster == b.cluster ==> a == b
  {
    if a.run > b.run {
      BoundsBelow(l, b.run + 1, a.run);
    }
    if a.cluster == b.cluster && b.run > a.run {
      BoundsBelow(l, a.run + 1, b.run);
    }
  }

  /** `startsAtEllipsizationBoundary`: the line's first cluster, or a cluster an ellipsis may begin before. */
  predicate StartsAtBoundary(l: Line, it: LineIter)
    requires WellFormed(l) && ValidIter(l, it)
  {
    (it.cluster == l.bounds[it.run] && it.run == 0) || l.clusters[it.cluster].boundaryBefore
  }

  /** `endsAtEllipsizationBoundary`: the line's last cluster, or a cluster an ellipsis may end after. */
  predicate EndsAtBoundary(l: Line, it: LineIter)
    requires WellFormed(l) && ValidIter(l, it)
  {
    (it.cluster + 1 == l.bounds[it.run + 1] && it.run == |l.runs| - 1) || l.clusters[it.cluster].boundaryAfter
  }

  /** The boundary before `it` found by stepping back, as `findInitialSpan` expands the gap. */
  function ExpandStart(l: Line, it: LineIter): (r: LineIter)
    requires WellFormed(l) && ValidIter(l, it)
    ensures ValidIter(l, r) && r.cluster <= it.cluster
    decreases it.cluster
  {
    if StartsAtBoundary(l, it) then it
    else
      assert it.cluster > 0 by {
        if it.run > 0 { RunNonEmpty(l, it.run - 1); }
      }
      ExpandStart(l, PrevCluster(l, it).1)
  }

  /** The boundary after `it` found by stepping on, as `findInitialSpan` expands the gap. */
  function ExpandEnd(l: Line, it: LineIter): (r: LineIter)
    requires WellFormed(l) && ValidIter(l, it)
    ensures ValidIter(l, r) && it.cluster <= r.cluster
    decreases |l.clusters| - it.cluster
  {
    if EndsAtBoundary(l, it) then it
    else
      assert it.cluster + 1 < |l.clusters| by {
        if it.run < |l.runs| - 1 { RunNonEmpty(l, it.run + 1); }
      }
      ExpandEnd(l, NextCluster(l, it).1)
  }

  /**
   * The new start of the gap `removeOneSpan` finds going back from `it`:
   * at least one cluster back, on to the first cluster taken that starts at
   * a boundary and has a width, or the start of the line.
   */
  function SpanStart(l: Line, it: LineIter): (r: LineIter)
    requires WellFormed(l) && ValidIter(l, it)
    ensures ValidIter(l, r) && r.cluster <= it.cluster
    decreases it.cluster
  {
    var (ok, prev) := PrevCluster(l, it);
    if !ok then it
    else if StartsAtBoundary(l, prev) && l.clusters[prev.cluster].width != 0 then prev
    else SpanStart(l, prev)
  }

  /**
   * The new end of the gap `removeOneSpan` finds going on from `it`: at
   * least one cluster on, to the first cluster taken that ends at a
   * boundary and has a width, or the end of the line.
   */
  function SpanEnd(l: Line, it: LineIter): (r: LineIter)
    requires WellFormed(l) && ValidIter(l, it)
    ensures ValidIter(l, r) && it.cluster <= r.cluster
    decreases |l.clusters| - it.cluster
  {
    var (ok, next) := NextCluster(l, it);
    if !ok then it
    else if EndsAtBoundary(l, next) && l.clusters[next.cluster].width != 0 then next
    else SpanEnd(l, next)
  }

  /** The initial gap starts at the nearest boundary at or before the centre cluster. */
  lemma {:induction false} ExpandStartNearest(l: Line, it: LineIter)
    requires WellFormed(l) && ValidIter(l, it)
    ensures StartsAtBoundary(l, ExpandStart(l, it))
    ensures forall q :: ExpandStart(l, it).cluster < q <= it.cluster ==> !l.clusters[q].boundaryBefore
    decreases it.cluster
  {
    if !StartsAtBoundary(l, it) {
      var prev := PrevCluster(l, it).1;
      ExpandStartNearest(l, prev);
    }
  }

  /** The initial gap ends at the nearest boundary at or after the centre cluster. */
  lemma {:induction false} ExpandEndNearest(l: Line, it: LineIter)
    requires WellFormed(l) && ValidIter(l, it)
    ensures EndsAtBoundary(l, ExpandEnd(l, it))
    ensures forall q :: it.cluster <= q < ExpandEnd(l, it).cluster ==> !l.clusters[q].boundaryAfter
    decreases |l.clusters| - it.cluster
  {
    if !EndsAtBoundary(l, it) {
      var next := NextCluster(l, it).1;
      ExpandEndNearest(l, next);
    }
  }

  /**
   * The span before the gap reaches back to the nearest cluster before it
   * that starts at a boundary and has a width, or else to the line's start.
   */
  lemma {:induction false} SpanStartNearest(l: Line, it: LineIter)
    requires WellFormed(l) && ValidIter(l, it)
    ensures var r := SpanStart(l, it);
      && (r.cluster == 0 || (r.cluster < it.cluster && StartsAtBoundary(l, r) && l.clusters[r.cluster].width != 0))
      && (forall q :: r.cluster < q < it.cluster ==> !(l.clusters[q].boundaryBefore && l.clusters[q].width != 0))
    decreases it.cluster
  {
    var (ok, prev) := PrevCluster(l, it);
    if ok && !(StartsAtBoundary(l, prev) && l.clusters[prev.cluster].width != 0) {
      SpanStartNearest(l, prev);
    }
  }

  /**
   * The span after the gap reaches on to the nearest cluster after it that
   * ends at a boundary and has a width, or else to the line's end.
   */
  lemma {:induction false} SpanEndNearest(l: Line, it: LineIter)
    requires WellFormed(l) && ValidIter(l, it)
    ensures var r := SpanEnd(l, it);
      && (r.cluster == |l.clusters| - 1 || (it.cluster < r.cluster && EndsAtBoundary(l, r) && l.clusters[r.cluster].width != 0))
      && (forall q :: it.cluster < q < r.cluster ==> !(l.clusters[q].boundaryAfter && l.clusters[q].width != 0))
    decreases |l.clusters| - it.cluster
  {
    var (ok, next) := NextCluster(l, it);
    if ok && !(EndsAtBoundary(l, next) && l.clusters[next.cluster].width != 0) {
      SpanEndNearest(l, next);
    }
  }

  // ---------------------------------------------------------------- the initial gap

  /** The run `findInitialSpan` starts in: the first whose right edge lies past `center`, or the last (see `InitialRunIsFirst`). */
  function InitialRun(l: Line, center: int): (i: int)
    requires WellFormed(l) && |l.runs| > 0
    ensures 0 <= i < |l.runs|
  {
    FirstRunPast(l, center, 0)
  }

  function FirstRunPast(l: Line, center: int, k: int): (i: int)
    requires WellFormed(l) && 0 <= k < |l.runs|
    ensures k <= i < |l.runs|
    decreases |l.runs| - k
  {
    if k == |l.runs| - 1 || X(l, l.bounds[k + 1]) > center then k else FirstRunPast(l, center, k + 1)
  }

  lemma {:induction false} FirstRunPastIsFirst(l: Line, center: int, k: int)
    requires WellFormed(l) && 0 <= k < |l.runs|
    requires forall j :: 0 < j <= k ==> X(l, l.bounds[j]) <= center
    ensures var i := FirstRunPast(l, center, k);
      && (forall j :: 0 < j <= i ==> X(l, l.bounds[j]) <= center)
      && (i < |l.runs| - 1 ==> X(l, l.bounds[i + 1]) > center)
    decreases |l.runs| - k
  {
    if !(k == |l.runs| - 1 || X(l, l.bounds[k + 1]) > center) {
      FirstRunPastIsFirst(l, center, k + 1);
    }
  }

  /** Every run before the initial one ends at or before the centre, and the initial one, unless it is the last, ends past it. */
  lemma InitialRunIsFirst(l: Line, center: int)
    requires WellFormed(l) && |l.runs| > 0
    ensures var i := InitialRun(l, center);
      && (forall k :: 0 < k <= i ==> X(l, l.bounds[k]) <= center)
      && (i < |l.runs| - 1 ==> X(l, l.bounds[i + 1]) > center)
  {
    FirstRunPastIsFirst(l, center, 0);
  }

  /** The cluster of run `i` at or after cluster `k` holding `center`: the first whose right edge lies past it, or the run's last. */
  function InitialCluster(l: Line, i: int, center: int, k: int): (p: int)
    requires WellFormed(l) && 0 <= i < |l.runs| && l.bounds[i] <= k < l.bounds[i + 1]
    ensures k <= p < l.bounds[i + 1]
    decreases l.bounds[i + 1] - k
  {
    if k == l.bounds[i + 1] - 1 || X(l, k + 1) > center then k else InitialCluster(l, i, center, k + 1)
  }

  /** Every cluster of the run before the initial one ends at or before the centre, and the initial one, unless it is the run's last, ends past it. */
  lemma {:induction false} InitialClusterIsFirst(l: Line, i: int, center: int, k: int)
    requires WellFormed(l) && 0 <= i < |l.runs| && l.bounds[i] <= k < l.bounds[i + 1]
    requires forall q :: l.bounds[i] < q <= k ==> X(l, q) <= center
    ensures var p := InitialCluster(l, i, center, k);
      && (forall q :: l.bounds[i] < q <= p ==> X(l, q) <= center)
      && (p < l.bounds[i + 1] - 1 ==> X(l, p + 1) > center)
    decreases l.bounds[i + 1] - k
  {
    if !(k == l.bounds[i + 1] - 1 || X(l, k + 1) > center) {
      InitialClusterIsFirst(l, i, center, k + 1);
    }
  }

  /** The iterator at the cluster holding the gap centre. */
  function CenterIter(l: Line, center: int): (it: LineIter)
    requires WellFormed(l) && |l.runs| > 0
    ensures ValidIter(l, it)
  {
    var i := InitialRun(l, center);
    RunNonEmpty(l, i);
    LineIter(i, InitialCluster(l, i, center, l.bounds[i]))
  }

  // ---------------------------------------------------------------- the ellipsis run

  /** The shaped ellipsis: its glyphs, and the item fields the ellipsizer sets. */
  class EllipsisRun {
    const widths: array<int>
    const logClusters: array<int>
    const clusterStart: array<bool>
    var offset: int
    var length: int
    var level: int8
    var isEllipsis: bool

    ghost predicate Valid()
      reads this
    {
      widths.Length > 0 && logClusters.Length == widths.Length && clusterStart.Length == widths.Length
      && widths != logClusters
    }

    constructor (widths: array<int>, logClusters: array<int>, clusterStart: array<bool>)
      requires widths.Length > 0 && logClusters.Length == widths.Length && clusterStart.Length == widths.Length
      requires widths != logClusters
      ensures Valid() && this.widths == widths && this.logClusters == logClusters && this.clusterStart == clusterStart
      ensures !isEllipsis
    {
      this.widths, this.logClusters, this.clusterStart := widths, logClusters, clusterStart;
      offset, length, level, isEllipsis := 0, 0, 0, false;
    }
  }

  /** The lowest of the levels of some runs, starting from the largest `int8`. */
  function MinLevel(runs: seq<RunItem>): int8
  {
    if runs == [] then 127
    else
      var front := MinLevel(runs[..|runs| - 1]);
      var last := runs[|runs| - 1];
      if front < last.level then front else last.level
  }

  /** The level of the ellipsis over the gap from `s` to `e`: the lowest level of the runs it touches. */
  function ElidedLevelOf(l: Line, s: LineIter, e: LineIter): int8
    requires 0 <= s.run <= e.run < |l.runs|
  {
    MinLevel(l.runs[s.run..e.run + 1])
  }

  /** The level is at most that of every run, and is one of them unless there are none. */
  lemma {:induction false} MinLevelIsMin(runs: seq<RunItem>)
    ensures forall k :: 0 <= k < |runs| ==> MinLevel(runs) <= runs[k].level
    ensures runs != [] ==> exists k :: 0 <= k < |runs| && MinLevel(runs) == runs[k].level
    ensures runs == [] ==> MinLevel(runs) == 127
  {
    if runs != [] {
      var front := runs[..|runs| - 1];
      MinLevelIsMin(front);
      assert forall k :: 0 <= k < |front| ==> front[k] == runs[k];
      if front != [] && MinLevel(front) < runs[|runs| - 1].level {
        var k :| 0 <= k < |front| && MinLevel(front) == front[k].level;
        assert MinLevel(runs) == runs[k].level;
      }
    }
  }

  // ---------------------------------------------------------------- the pieces of the new line

  /** A run of the rebuilt line: a whole run, the part of a run before or after the gap, or the ellipsis. */
  datatype Piece = Whole(run: int) | Head(run: int, upTo: int) | Tail(run: int, from: int) | Ellipsis

  /** The whole runs from `a` up to `b`. */
  function Wholes(a: int, b: int): (r: seq<Piece>)
    requires a <= b
    ensures |r| == b - a && forall k :: 0 <= k < b - a ==> r[k] == Whole(a + k)
  {
    seq(b - a, k requires 0 <= k < b - a => Whole(a + k))
  }

  /** The indices from `a` up to `b`. */
  function Range(a: int, b: int): (r: seq<int>)
    ensures |r| == if a <= b then b - a else 0
    ensures forall k :: 0 <= k < |r| ==> r[k] == a + k
  {
    if a <= b then seq(b - a, k requires 0 <= k < b - a => a + k) else []
  }

  lemma RangeAppend(a: int, b: int, c: int)
    requires a <= b <= c
    ensures Range(a, b) + Range(b, c) == Range(a, c)
  {
  }

  /** The clusters of the line a piece shows. */
  function PieceClusters(l: Line, p: Piece): seq<int>
  {
    if p.Ellipsis? || !(0 <= p.run < |l.bounds| - 1) then []
    else
      match p
      case Whole(r) => Range(l.bounds[r], l.bounds[r + 1])
      case Head(r, u) => Range(l.bounds[r], u)
      case Tail(r, f) => Range(f, l.bounds[r + 1])
  }

  /** Some lists of indices one after the other. */
  function Concat(ss: seq<seq<int>>): seq<int>
  {
    if ss == [] then [] else ss[0] + Concat(ss[1..])
  }

  lemma {:induction false} ConcatAppend(a: seq<seq<int>>, b: seq<seq<int>>)
    ensures Concat(a + b) == Concat(a) + Concat(b)
    decreases |a|
  {
    if a == [] {
      assert a + b == b;
    } else {
      ConcatAppend(a[1..], b);
      assert (a + b)[1..] == a[1..] + b;
      assert (a + b)[0] == a[0];
    }
  }

  /** The clusters of the line that some pieces show, in order. */
  function Kept(l: Line, ps: seq<Piece>): seq<int>
  {
    Concat(seq(|ps|, k requires 0 <= k < |ps| => PieceClusters(l, ps[k])))
  }

  lemma KeptAppend(l: Line, a: seq<Piece>, b: seq<Piece>)
    ensures Kept(l, a + b) == Kept(l, a) + Kept(l, b)
  {
    var sa := seq(|a|, k requires 0 <= k < |a| => PieceClusters(l, a[k]));
    var sb := seq(|b|, k requires 0 <= k < |b| => PieceClusters(l, b[k]));
    var ab := a + b;
    assert seq(|ab|, k requires 0 <= k < |ab| => PieceClusters(l, ab[k])) == sa + sb;
    ConcatAppend(sa, sb);
  }

  lemma KeptOne(l: Line, p: Piece)
    ensures Kept(l, [p]) == PieceClusters(l, p)
  {
    var s := seq(1, k requires 0 <= k < 1 => PieceClusters(l, [p][k]));
    assert s == [PieceClusters(l, p)];
    assert Concat(s) == s[0] + Concat(s[1..]);
    assert s[1..] == [];
  }

  /** Whole runs show the clusters from the first one's start to the last one's end. */
  lemma {:induction false} KeptWholes(l: Line, a: int, b: int)
    requires WellFormed(l) && 0 <= a <= b <= |l.runs|
    ensures Kept(l, Wholes(a, b)) == Range(l.bounds[a], l.bounds[b])
    decreases b - a
  {
    var w := Wholes(a, b);
    if a < b {
      KeptWholes(l, a + 1, b);
      assert w == [Whole(a)] + Wholes(a + 1, b);
      KeptAppend(l, [Whole(a)], Wholes(a + 1, b));
      KeptOne(l, Whole(a));
      RunNonEmpty(l, a);
      BoundsBelow(l, a + 1, b);
      RangeAppend(l.bounds[a], l.bounds[a + 1], l.bounds[b]);
    } else {
      assert w == [];
    }
  }

  /**
   * The runs of the ellipsized line: the whole runs before the gap, the
   * part of the gap's first run before it, the ellipsis, the part of the
   * gap's last run after it, and the whole runs after the gap.
   */
  function RunList(l: Line, s: LineIter, e: LineIter): seq<Piece>
    requires WellFormed(l) && ValidIter(l, s) && ValidIter(l, e)
  {
    Before(l, s) + [Ellipsis] + After(l, e)
  }

  /** The pieces before the ellipsis. */
  function Before(l: Line, s: LineIter): seq<Piece>
    requires WellFormed(l) && ValidIter(l, s)
  {
    Wholes(0, s.run) + (if s.cluster != l.bounds[s.run] then [Head(s.run, s.cluster)] else [])
  }

  /** The pieces after the ellipsis. */
  function After(l: Line, e: LineIter): seq<Piece>
    requires WellFormed(l) && ValidIter(l, e)
  {
    (if e.cluster + 1 != l.bounds[e.run + 1] then [Tail(e.run, e.cluster + 1)] else []) + Wholes(e.run + 1, |l.runs|)
  }

  lemma KeptBefore(l: Line, s: LineIter)
    requires WellFormed(l) && ValidIter(l, s)
    ensures Kept(l, Before(l, s)) == Range(0, s.cluster)
  {
    var head := if s.cluster != l.bounds[s.run] then [Head(s.run, s.cluster)] else [];
    assert Before(l, s) == Wholes(0, s.run) + head;
    KeptAppend(l, Wholes(0, s.run), head);
    KeptWholes(l, 0, s.run);
    assert Kept(l, head) == Range(l.bounds[s.run], s.cluster) by {
      if head != [] { KeptOne(l, head[0]); }
    }
    RangeAppend(0, l.bounds[s.run], s.cluster);
  }

  lemma KeptAfter(l: Line, e: LineIter)
    requires WellFormed(l) && ValidIter(l, e)
    ensures Kept(l, After(l, e)) == Range(e.cluster + 1, |l.clusters|)
  {
    var tail := if e.cluster + 1 != l.bounds[e.run + 1] then [Tail(e.run, e.cluster + 1)] else [];
    assert After(l, e) == tail + Wholes(e.run + 1, |l.runs|);
    KeptAppend(l, tail, Wholes(e.run + 1, |l.runs|));
    KeptWholes(l, e.run + 1, |l.runs|);
    assert Kept(l, tail) == Range(e.cluster + 1, l.bounds[e.run + 1]) by {
      if tail != [] { KeptOne(l, tail[0]); }
    }
    RangeAppend(e.cluster + 1, l.bounds[e.run + 1], |l.clusters|);
  }

  /** The rebuilt line shows exactly the clusters outside the gap, in order, with the ellipsis between them. */
  lemma RunListKept(l: Line, s: LineIter, e: LineIter)
    requires WellFormed(l) && ValidIter(l, s) && ValidIter(l, e)
    ensures Kept(l, RunList(l, s, e)) == Range(0, s.cluster) + Range(e.cluster + 1, |l.clusters|)
    ensures RunList(l, s, e)[|Before(l, s)|] == Ellipsis
  {
    var b, a := Before(l, s), After(l, e);
    KeptAppend(l, b + [Ellipsis], a);
    KeptAppend(l, b, [Ellipsis]);
    KeptOne(l, Ellipsis);
    KeptBefore(l, s);
    KeptAfter(l, e);
  }

  /**
   * The gap `removeOneSpan` leaves: none when neither the span before nor
   * the span after would move an edge of the gap; otherwise the gap with
   * the span before taken in when the end cannot move, or when the start
   * can and the new start lies closer to the centre than the new end; and
   * with the span after taken in in every other case.
   */
  function GrowOnce(l: Line, center: int, s: LineIter, e: LineIter): Option<(LineIter, LineIter)>
    requires WellFormed(l) && ValidIter(l, s) && ValidIter(l, e)
  {
    var ns, ne := SpanStart(l, s), SpanEnd(l, e);
    var sx, ex, nsx, nex := X(l, s.cluster), X(l, e.cluster + 1), X(l, ns.cluster), X(l, ne.cluster + 1);
    if ex == nex && sx == nsx then None
    else if ex == nex || (sx != nsx && center - nsx < nex - center) then Some((ns, e))
    else Some((s, ne))
  }

  /**
   * Growing takes in exactly one span, on one side, and the gap gets
   * strictly larger; it fails only when both spans are empty in width.
   */
  lemma GrowOnceOneSide(l: Line, center: int, s: LineIter, e: LineIter)
    requires WellFormed(l) && ValidIter(l, s) && ValidIter(l, e)
    ensures var g := GrowOnce(l, center, s, e);
      && (g.None? <==> X(l, SpanStart(l, s).cluster) == X(l, s.cluster) && X(l, SpanEnd(l, e).cluster + 1) == X(l, e.cluster + 1))
      && (g.Some? ==>
            ((g.value.0 == SpanStart(l, s) && g.value.0.cluster < s.cluster && g.value.1 == e)
             || (g.value.0 == s && g.value.1 == SpanEnd(l, e) && g.value.1.cluster > e.cluster)))
  {
  }

  /** The line's width with the gap from `s` to `e` replaced by the ellipsis shaped for `s`. */
  function GapWidth(l: Line, ellipsisWidths: seq<int>, s: LineIter, e: LineIter): int
    requires WellFormed(l) && |ellipsisWidths| == |l.clusters| && ValidIter(l, s) && ValidIter(l, e)
  {
    X(l, |l.clusters|) - (X(l, e.cluster + 1) - X(l, s.cluster)) + ellipsisWidths[s.cluster]
  }

  /**
   * The gap the loop of `ellipsize` ends with: the first gap, going from
   * `(s, e)` one `GrowOnce` at a time, at which the line fits the goal or no
   * span is left. It contains the gap it starts from.
   */
  function GrowUntil(l: Line, ellipsisWidths: seq<int>, center: int, goal: int, s: LineIter, e: LineIter): (r: (LineIter, LineIter))
    requires WellFormed(l) && |ellipsisWidths| == |l.clusters| && ValidIter(l, s) && ValidIter(l, e)
    ensures ValidIter(l, r.0) && ValidIter(l, r.1)
    ensures r.0.cluster <= s.cluster && e.cluster <= r.1.cluster
    ensures GapWidth(l, ellipsisWidths, s, e) <= goal ==> r == (s, e)
    ensures GapWidth(l, ellipsisWidths, r.0, r.1) <= goal || GrowOnce(l, center, r.0, r.1).None?
    decreases s.cluster + (|l.clusters| - e.cluster)
  {
    if GapWidth(l, ellipsisWidths, s, e) <= goal then (s, e)
    else
      match GrowOnce(l, center, s, e)
      case None => (s, e)
      case Some(g) =>
        GrowOnceOneSide(l, center, s, e);
        GrowUntil(l, ellipsisWidths, center, goal, g.0, g.1)
  }

  /** The gap centre `findInitialSpan` picks for each mode; without a mode it stays at 0. */
  function CenterOf(mode: EllipsizeMode, total: int): (c: int)
    ensures mode == AtEnd ==> c == total
    ensures mode == InMiddle ==> c == QuoTrunc(total, 2)
    ensures mode == AtStart || mode == NoEllipsis ==> c == 0
  {
    match mode
    case NoEllipsis => 0
    case AtStart => 0
    case InMiddle => QuoTrunc(total, 2)
    case AtEnd => total
  }

  // ---------------------------------------------------------------- the passes over the line

  /** The run loop of `findInitialSpan`, with the back-off from the end of the line. */
  method FindRun(l: Line, center: int) returns (i: int, x: int)
    requires WellFormed(l) && |l.runs| > 0
    ensures i == InitialRun(l, center) && x == X(l, l.bounds[i])
  {
    x, i := 0, 0;
    while i < |l.runs|
      invariant 0 <= i <= |l.runs| && x == X(l, l.bounds[i])
      invariant i < |l.runs| ==> FirstRunPast(l, center, i) == InitialRun(l, center)
      invariant i == |l.runs| ==> InitialRun(l, center) == |l.runs| - 1
    {
      var width := RunWidth(l, i);
      RunX(l, i);
      if x + width > center {
        break;
      }
      x := x + width;
      i := i + 1;
    }
    if i == |l.runs| {
      i := i - 1;
      RunX(l, i);
      x := x - RunWidth(l, i);
    }
  }

  /** The cluster loop of `findInitialSpan`, with the back-off from the end of the run. */
  method FindCluster(l: Line, i: int, x0: int, center: int) returns (it: LineIter, x: int, clusterWidth: int)
    requires WellFormed(l) && |l.runs| > 0 && i == InitialRun(l, center) && x0 == X(l, l.bounds[i])
    ensures it == CenterIter(l, center) && x == X(l, it.cluster)
    ensures clusterWidth == l.clusters[it.cluster].width
  {
    x := x0;
    it := LineIter(i, l.bounds[i]);
    var haveCluster := true;
    clusterWidth := 0;
    RunNonEmpty(l, i);
    ghost var target := InitialCluster(l, i, center, l.bounds[i]);
    while haveCluster
      invariant ValidIter(l, it) && it.run == i
      invariant haveCluster ==> x == X(l, it.cluster) && InitialCluster(l, i, center, it.cluster) == target
      invariant !haveCluster ==> it.cluster == target && clusterWidth == l.clusters[it.cluster].width
      invariant !haveCluster ==> x == X(l, it.cluster + 1)
      decreases l.bounds[i + 1] - it.cluster, haveCluster
    {
      clusterWidth := l.clusters[it.cluster].width;
      XStep(l, it.cluster);
      if x + clusterWidth > center {
        break;
      }
      x := x + clusterWidth;
      if it.cluster + 1 < l.bounds[i + 1] {
        it := LineIter(i, it.cluster + 1);
      } else {
        haveCluster := false;
      }
    }
    if !haveCluster {
      XStep(l, it.cluster);
      x := x - clusterWidth;
    }
  }

  /** Widening the gap's start back to a boundary, tracking its x position. */
  method WidenStart(l: Line, it: LineIter, x: int) returns (s: LineIter, sx: int)
    requires WellFormed(l) && ValidIter(l, it) && x == X(l, it.cluster)
    ensures s == ExpandStart(l, it) && sx == X(l, s.cluster)
  {
    s, sx := it, x;
    while !StartsAtBoundary(l, s)
      invariant ValidIter(l, s) && sx == X(l, s.cluster)
      invariant ExpandStart(l, s) == ExpandStart(l, it)
      decreases s.cluster
    {
      assert s.cluster > 0 by {
        if s.run > 0 { RunNonEmpty(l, s.run - 1); }
      }
      var c := s.cluster - 1;
      XStep(l, c);
      s := PrevCluster(l, s).1;
      assert s.cluster == c;
      sx := sx - l.clusters[c].width;
    }
  }

  /** Widening the gap's end on to a boundary, tracking its x position. */
  method WidenEnd(l: Line, it: LineIter, x: int) returns (e: LineIter, ex: int)
    requires WellFormed(l) && ValidIter(l, it) && x == X(l, it.cluster + 1)
    ensures e == ExpandEnd(l, it) && ex == X(l, e.cluster + 1)
  {
    e, ex := it, x;
    while !EndsAtBoundary(l, e)
      invariant ValidIter(l, e) && ex == X(l, e.cluster + 1)
      invariant ExpandEnd(l, e) == ExpandEnd(l, it)
      decreases |l.clusters| - e.cluster
    {
      assert e.cluster + 1 < |l.clusters| by {
        if e.run < |l.runs| - 1 { RunNonEmpty(l, e.run + 1); }
      }
      var c := e.cluster + 1;
      XStep(l, c);
      e := NextCluster(l, e).1;
      assert e.cluster == c;
      ex := ex + l.clusters[c].width;
    }
  }

  /** The backward do-while of `removeOneSpan`, tracking the x position. */
  method StepBack(l: Line, it: LineIter, x: int) returns (ns: LineIter, nsx: int)
    requires WellFormed(l) && ValidIter(l, it) && x == X(l, it.cluster)
    ensures ns == SpanStart(l, it) && nsx == X(l, ns.cluster)
  {
    ns, nsx := it, x;
    var going := true;
    while going
      invariant ValidIter(l, ns) && nsx == X(l, ns.cluster)
      invariant going ==> SpanStart(l, ns) == SpanStart(l, it)
      invariant !going ==> ns == SpanStart(l, it)
      decreases ns.cluster + (if going then 1 else 0)
    {
      var (ok, prev) := PrevCluster(l, ns);
      if !ok {
        break;
      }
      ns := prev;
      var width := l.clusters[ns.cluster].width;
      XStep(l, ns.cluster);
      nsx := nsx - width;
      going := !StartsAtBoundary(l, ns) || width == 0;
    }
  }

  /** The forward do-while of `removeOneSpan`, tracking the x position. */
  method StepOn(l: Line, it: LineIter, x: int) returns (ne: LineIter, nex: int)
    requires WellFormed(l) && ValidIter(l, it) && x == X(l, it.cluster + 1)
    ensures ne == SpanEnd(l, it) && nex == X(l, ne.cluster + 1)
  {
    ne, nex := it, x;
    var going := true;
    while going
      invariant ValidIter(l, ne) && nex == X(l, ne.cluster + 1)
      invariant going ==> SpanEnd(l, ne) == SpanEnd(l, it)
      invariant !going ==> ne == SpanEnd(l, it)
      decreases |l.clusters| - ne.cluster + (if going then 1 else 0)
    {
      var (ok, next) := NextCluster(l, ne);
      if !ok {
        break;
      }
      ne := next;
      var width := l.clusters[ne.cluster].width;
      XStep(l, ne.cluster);
      nex := nex + width;
      going := !EndsAtBoundary(l, ne) || width == 0;
    }
  }

  /** The level loop of `fixupEllipsisRun`: the lowest level of runs `a` up to `b`, from the largest `int8` down. */
  method ElidedLevel(runs: seq<RunItem>, a: int, b: int) returns (level: int8)
    requires 0 <= a <= b <= |runs|
    ensures level == MinLevel(runs[a..b])
  {
    level := 127;
    for k := a to b
      invariant level == MinLevel(runs[a..k])
    {
      assert runs[a..k + 1][..k - a] == runs[a..k];
      if runs[k].level < level {
        level := runs[k].level;
      }
    }
  }

  /** The passes of `findInitialSpan` after the centre is set: the initial gap with its x positions. */
  method InitialSpan(l: Line, ellipsisWidths: seq<int>, total: int, center: int) returns (s: LineIter, sx: int, e: LineIter, ex: int)
    requires WellFormed(l) && |l.runs| > 0 && |ellipsisWidths| == |l.clusters| && total == X(l, |l.clusters|)
    ensures s == ExpandStart(l, CenterIter(l, center)) && e == ExpandEnd(l, CenterIter(l, center))
    ensures GapOk(l, ellipsisWidths, total, s, sx, e, ex, ellipsisWidths[s.cluster])
  {
    var i, x := FindRun(l, center);
    var it, cx, clusterWidth := FindCluster(l, i, x, center);
    s, sx := WidenStart(l, it, cx);
    e, ex := WidenEnd(l, it, cx + clusterWidth);
  }

  /**
   * The gap runs from the cluster at `s` to the one at `e`, its x positions
   * are the left edge of the first and the right edge of the last, and the
   * ellipsis is the one shaped for its first cluster.
   */
  ghost predicate GapOk(l: Line, ellipsisWidths: seq<int>, total: int, s: LineIter, sx: int, e: LineIter, ex: int, ew: int)
  {
    && WellFormed(l) && |ellipsisWidths| == |l.clusters| && total == X(l, |l.clusters|)
    && ValidIter(l, s) && ValidIter(l, e) && s.cluster <= e.cluster
    && sx == X(l, s.cluster) && ex == X(l, e.cluster + 1)
    && ew == ellipsisWidths[s.cluster]
  }

  // ---------------------------------------------------------------- the state

  /** `ellipsizeState`: the line, the gap, and the widths the ellipsizer tracks. */
  class EllipsizeState {
    const line: Line
    const mode: EllipsizeMode
    /** The width of the ellipsis shaped for a gap that starts at each cluster. */
    const ellipsisWidths: seq<int>
    var startOffsets: seq<int>
    var totalWidth: int
    var gapCenter: int
    var gapStart: LineIter
    var gapStartX: int
    var gapEnd: LineIter
    var gapEndX: int
    var ellipsisWidth: int

    /** The line and its width, as `newState` computes them. */
    ghost predicate Ready()
      reads this
    {
      WellFormed(line) && |ellipsisWidths| == |line.clusters| && totalWidth == X(line, |line.clusters|)
    }

    /**
     * The gap runs from the cluster at `gapStart` to the one at `gapEnd`,
     * its x positions are the left edge of the first and the right edge of
     * the last, and the ellipsis is the one shaped for its first cluster.
     */
    ghost predicate Gap()
      reads this
    {
      GapOk(line, ellipsisWidths, totalWidth, gapStart, gapStartX, gapEnd, gapEndX, ellipsisWidth)
    }

    /**
     * `newState`: the total width is the sum of the run widths, and each
     * run's start offset is the line's start index plus the lengths of
     * the runs before it.
     */
    constructor (line: Line, mode: EllipsizeMode, ellipsisWidths: seq<int>)
      requires WellFormed(line) && |ellipsisWidths| == |line.clusters|
      ensures this.line == line && this.mode == mode && this.ellipsisWidths == ellipsisWidths
      ensures totalWidth == RunsWidth(line, |line.runs|) && Ready()
      ensures |startOffsets| == |line.runs|
      ensures forall i :: 0 <= i < |line.runs| ==> startOffsets[i] == line.startIndex + Lengths(line.runs[..i])
      ensures gapCenter == 0
    {
      var offsets: seq<int> := [];
      var total := 0;
      var startOffset := line.startIndex;
      for i := 0 to |line.runs|
        invariant |offsets| == i && total == RunsWidth(line, i)
        invariant startOffset == line.startIndex + Lengths(line.runs[..i])
        invariant forall k :: 0 <= k < i ==> offsets[k] == line.startIndex + Lengths(line.runs[..k])
      {
        var width := RunWidth(line, i);
        offsets := offsets + [startOffset];
        total := total + width;
        startOffset := startOffset + line.runs[i].length;
        assert line.runs[..i + 1][..i] == line.runs[..i];
      }
      RunsWidthX(line, |line.runs|);
      this.line, this.mode, this.ellipsisWidths := line, mode, ellipsisWidths;
      startOffsets, totalWidth, gapCenter := offsets, total, 0;
      gapStart, gapStartX, gapEnd, gapEndX, ellipsisWidth := LineIter(0, 0), 0, LineIter(0, 0), 0, 0;
    }

    /** `currentWidth`: the line's width with the gap taken out and the ellipsis put in. */
    function CurrentWidth(): int
      reads this
    {
      totalWidth - (gapEndX - gapStartX) + ellipsisWidth
    }

    /** The current width is that of the clusters left before and after the gap, plus the ellipsis. */
    lemma CurrentWidthKept()
      requires Gap()
      ensures CurrentWidth() == Width(line.clusters, 0, gapStart.cluster) + Width(line.clusters, gapEnd.cluster + 1, |line.clusters|) + ellipsisWidth
    {
      WidthSplit(line.clusters, 0, gapEnd.cluster + 1, |line.clusters|);
    }

    /**
     * `findInitialSpan`: the gap centre by mode; the cluster holding it (see
     * `CenterIter`); the gap widened from that cluster to the nearest
     * boundaries on both sides; the ellipsis shaped for its first cluster.
     */
    method FindInitialSpan()
      requires Ready() && |line.runs| > 0
      modifies this`gapCenter, this`gapStart, this`gapStartX, this`gapEnd, this`gapEndX, this`ellipsisWidth
      ensures mode == AtStart ==> gapCenter == 0
      ensures mode == InMiddle ==> gapCenter == QuoTrunc(totalWidth, 2)
      ensures mode == AtEnd ==> gapCenter == totalWidth
      ensures mode == NoEllipsis ==> gapCenter == old(gapCenter)
      ensures gapStart == ExpandStart(line, CenterIter(line, gapCenter))
      ensures gapEnd == ExpandEnd(line, CenterIter(line, gapCenter))
      ensures Gap()
    {
      var center := gapCenter;
      if mode == AtStart {
        center := 0;
      } else if mode == InMiddle {
        center := QuoTrunc(totalWidth, 2);
      } else if mode == AtEnd {
        center := totalWidth;
      }
      var s, sx, e, ex := InitialSpan(line, ellipsisWidths, totalWidth, center);
      gapCenter, gapStart, gapStartX, gapEnd, gapEndX := center, s, sx, e, ex;
      ellipsisWidth := ellipsisWidths[s.cluster];
    }

    /**
     * `removeOneSpan`: finds the next span before and after the gap, and
     * takes one of them in as `GrowOnce` says, or fails.
     */
    method RemoveOneSpan() returns (removed: bool)
      requires Gap()
      modifies this`gapStart, this`gapStartX, this`gapEnd, this`gapEndX, this`ellipsisWidth
      ensures Gap()
      ensures removed <==> GrowOnce(line, gapCenter, old(gapStart), old(gapEnd)).Some?
      ensures removed ==> (gapStart, gapEnd) == GrowOnce(line, gapCenter, old(gapStart), old(gapEnd)).value
      ensures !removed ==> gapStart == old(gapStart) && gapEnd == old(gapEnd)
    {
      var ns, nsx := StepBack(line, gapStart, gapStartX);
      var ne, nex := StepOn(line, gapEnd, gapEndX);
      if gapEndX == nex && gapStartX == nsx {
        return false;
      }
      if gapEndX == nex || (gapStartX != nsx && gapCenter - nsx < nex - gapCenter) {
        gapStart, gapStartX := ns, nsx;
        ellipsisWidth := ellipsisWidths[ns.cluster];
      } else {
        gapEnd, gapEndX := ne, nex;
      }
      return true;
    }

    /**
     * The loop of `ellipsize`: spans are taken in while the line is wider
     * than the goal, until none is left that would change the width; the
     * gap it stops at is the first such gap, `GrowUntil` of the one it
     * starts from.
     */
    method Shrink(goalWidth: int)
      requires Gap()
      modifies this`gapStart, this`gapStartX, this`gapEnd, this`gapEndX, this`ellipsisWidth
      ensures Gap()
      ensures (gapStart, gapEnd) == GrowUntil(line, ellipsisWidths, gapCenter, goalWidth, old(gapStart), old(gapEnd))
      ensures gapStart.cluster <= old(gapStart.cluster) && old(gapEnd.cluster) <= gapEnd.cluster
      ensures CurrentWidth() <= goalWidth || GrowOnce(line, gapCenter, gapStart, gapEnd).None?
    {
      ghost var target := GrowUntil(line, ellipsisWidths, gapCenter, goalWidth, gapStart, gapEnd);
      while CurrentWidth() > goalWidth
        invariant Gap() && CurrentWidth() == GapWidth(line, ellipsisWidths, gapStart, gapEnd)
        invariant GrowUntil(line, ellipsisWidths, gapCenter, goalWidth, gapStart, gapEnd) == target
        decreases gapStart.cluster + (|line.clusters| - gapEnd.cluster)
      {
        GrowOnceOneSide(line, gapCenter, gapStart, gapEnd);
        var removed := RemoveOneSpan();
        if !removed {
          break;
        }
      }
    }

    /**
     * `fixupEllipsisRun`: the ellipsis becomes one cluster starting at its
     * first glyph, its last glyph takes the extra width, and its item covers
     * the elided characters at the lowest level of the elided runs.
     */
    method FixupEllipsisRun(run: EllipsisRun, extraWidth: int)
      requires Gap() && run.Valid()
      modifies run`offset, run`length, run`level, run`isEllipsis, run.widths, run.logClusters, run.clusterStart
      ensures run.Valid()
      ensures forall i :: 0 <= i < run.logClusters.Length ==> run.logClusters[i] == 0
      ensures forall i :: 0 <= i < run.clusterStart.Length ==> (run.clusterStart[i] <==> i == 0)
      ensures forall i :: 0 <= i < run.widths.Length - 1 ==> run.widths[i] == old(run.widths[i])
      ensures run.widths[run.widths.Length - 1] == old(run.widths[run.widths.Length - 1]) + extraWidth
      ensures run.offset == line.clusters[gapStart.cluster].startIndex
      ensures run.length == line.clusters[gapEnd.cluster].endIndex - run.offset
      ensures gapStart.run <= gapEnd.run && run.level == ElidedLevelOf(line, gapStart, gapEnd)
      ensures run.isEllipsis
    {
      for i := 0 to run.logClusters.Length
        invariant forall k :: 0 <= k < i ==> run.logClusters[k] == 0 && !run.clusterStart[k]
        invariant forall k :: 0 <= k < run.widths.Length ==> run.widths[k] == old(run.widths[k])
      {
        run.logClusters[i] := 0;
        run.clusterStart[i] := false;
      }
      run.clusterStart[0] := true;
      var last := run.widths.Length - 1;
      run.widths[last] := run.widths[last] + extraWidth;
      run.offset := line.clusters[gapStart.cluster].startIndex;
      run.length := line.clusters[gapEnd.cluster].endIndex - run.offset;

      IterOfCluster(line, gapStart, gapEnd);
      var level := ElidedLevel(line.runs, gapStart.run, gapEnd.run + 1);
      run.level := level;
      run.isEllipsis := true;
    }

    /**
     * `getRunList`: the runs before the gap, the part of its first run
     * before it, the ellipsis, the part of its last run after it, and the
     * runs after the gap.
     */
    method GetRunList() returns (runs: seq<Piece>)
      requires Gap()
      ensures runs == RunList(line, gapStart, gapEnd)
    {
      var partialStart, partialEnd: seq<Piece> := [], [];
      if gapEnd.cluster + 1 != line.bounds[gapEnd.run + 1] {
        partialEnd := [Tail(gapEnd.run, gapEnd.cluster + 1)];
      }
      if gapStart.cluster != line.bounds[gapStart.run] {
        partialStart := [Head(gapStart.run, gapStart.cluster)];
      }
      runs := [];
      for k := 0 to gapStart.run
        invariant runs == Wholes(0, k)
      {
        runs := runs + [Whole(k)];
      }
      runs := runs + partialStart + [Ellipsis] + partialEnd;
      ghost var front := runs;
      for k := gapEnd.run + 1 to |line.runs|
        invariant runs == front + Wholes(gapEnd.run + 1, k)
      {
        runs := runs + [Whole(k)];
      }
    }

    /**
     * The part of `ellipsize` after the initial span: the gap grows as
     * `Shrink` says, the ellipsis run is fixed up with the room left below
     * the goal, and the line's runs are rebuilt around it.
     */
    method Elide(goalWidth: int, ellipsis: EllipsisRun) returns (runs: seq<Piece>)
      requires Gap() && ellipsis.Valid()
      modifies this`gapStart, this`gapStartX, this`gapEnd, this`gapEndX, this`ellipsisWidth
      modifies ellipsis, ellipsis.widths, ellipsis.logClusters, ellipsis.clusterStart
      ensures Gap()
      ensures (gapStart, gapEnd) == GrowUntil(line, ellipsisWidths, gapCenter, goalWidth, old(gapStart), old(gapEnd))
      ensures CurrentWidth() <= goalWidth || GrowOnce(line, gapCenter, gapStart, gapEnd).None?
      ensures runs == RunList(line, gapStart, gapEnd)
      ensures ellipsis.Valid() && ellipsis.isEllipsis
      ensures ellipsis.offset == line.clusters[gapStart.cluster].startIndex
      ensures ellipsis.length == line.clusters[gapEnd.cluster].endIndex - ellipsis.offset
      ensures gapStart.run <= gapEnd.run && ellipsis.level == ElidedLevelOf(line, gapStart, gapEnd)
      ensures forall i :: 0 <= i < ellipsis.logClusters.Length ==> ellipsis.logClusters[i] == 0
      ensures forall i :: 0 <= i < ellipsis.clusterStart.Length ==> (ellipsis.clusterStart[i] <==> i == 0)
      ensures forall i :: 0 <= i < ellipsis.widths.Length - 1 ==> ellipsis.widths[i] == old(ellipsis.widths[i])
      ensures ellipsis.widths[ellipsis.widths.Length - 1]
        == old(ellipsis.widths[ellipsis.widths.Length - 1]) + MaxG(goalWidth - CurrentWidth(), 0)
    {
      Shrink(goalWidth);
      FixupEllipsisRun(ellipsis, MaxG(goalWidth - CurrentWidth(), 0));
      runs := GetRunList();
    }
  }

  /** `maxG` on glyph units. */
  function MaxG(a: int, b: int): int
  {
    if a > b then a else b
  }

  /**
   * `ellipsize`: nothing happens without an ellipsization mode, with a
   * negative goal, or when the line already fits. Otherwise the gap starts
   * at the centre the mode names and grows one span at a time while the
   * line is too wide and some span is left; the ellipsis takes up whatever
   * room is left below the goal, and the line's runs are rebuilt around it.
   */
  method Ellipsize(line: Line, mode: EllipsizeMode, ellipsisWidths: seq<int>, goalWidth: int, ellipsis: EllipsisRun)
    returns (ellipsized: bool, runs: seq<Piece>, state: EllipsizeState?)
    requires WellFormed(line) && |ellipsisWidths| == |line.clusters| && ellipsis.Valid()
    modifies ellipsis, ellipsis.widths, ellipsis.logClusters, ellipsis.clusterStart
    ensures ellipsized <==> mode != NoEllipsis && goalWidth >= 0 && X(line, |line.clusters|) > goalWidth
    ensures !ellipsized ==> runs == Wholes(0, |line.runs|) && unchanged(ellipsis, ellipsis.widths, ellipsis.logClusters, ellipsis.clusterStart)
    ensures ellipsized ==>
      && state != null && state.line == line && state.ellipsisWidths == ellipsisWidths && state.Gap()
      && state.gapCenter == CenterOf(mode, X(line, |line.clusters|))
      && (state.gapStart, state.gapEnd)
         == GrowUntil(line, ellipsisWidths, state.gapCenter, goalWidth,
                      ExpandStart(line, CenterIter(line, state.gapCenter)), ExpandEnd(line, CenterIter(line, state.gapCenter)))
      && state.gapStart.cluster <= CenterIter(line, state.gapCenter).cluster <= state.gapEnd.cluster
      && (state.CurrentWidth() <= goalWidth || GrowOnce(line, state.gapCenter, state.gapStart, state.gapEnd).None?)
      && runs == RunList(line, state.gapStart, state.gapEnd)
    ensures ellipsized ==>
      && ellipsis.Valid() && ellipsis.isEllipsis
      && ellipsis.offset == line.clusters[state.gapStart.cluster].startIndex
      && ellipsis.length == line.clusters[state.gapEnd.cluster].endIndex - ellipsis.offset
      && state.gapStart.run <= state.gapEnd.run
      && ellipsis.level == ElidedLevelOf(line, state.gapStart, state.gapEnd)
      && (forall i :: 0 <= i < ellipsis.logClusters.Length ==> ellipsis.logClusters[i] == 0)
      && (forall i :: 0 <= i < ellipsis.clusterStart.Length ==> (ellipsis.clusterStart[i] <==> i == 0))
      && (forall i :: 0 <= i < ellipsis.widths.Length - 1 ==> ellipsis.widths[i] == old(ellipsis.widths[i]))
      && ellipsis.widths[ellipsis.widths.Length - 1]
         == old(ellipsis.widths[ellipsis.widths.Length - 1]) + MaxG(goalWidth - state.CurrentWidth(), 0)
  {
    runs, state := Wholes(0, |line.runs|), null;
    if mode == NoEllipsis || goalWidth < 0 {
      return false, runs, state;
    }
    var st := new EllipsizeState(line, mode, ellipsisWidths);
    if st.totalWidth <= goalWidth {
      return false, runs, state;
    }
    assert |line.runs| > 0;
    st.FindInitialSpan();
    runs := st.Elide(goalWidth, ellipsis);
    return true, runs, st;
  }
}

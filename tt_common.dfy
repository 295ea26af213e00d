// The OpenType Layout common tables of fonts/truetype/table_common.go: the
// Class Definition table (formats 1 and 2) and the Coverage table (formats 1
// and 2), their lookups, sizes and parsers.  Glyph indices are 16 bits wide,
// the width the binary tables store them in.

module TTCommon {
  import opened Common

  type GlyphIndex = uint16

  /**
   * A record of glyphs `start` to `end` with a value: the target class of a
   * `ClassRange`, the start coverage index of a `CoverageRange`.
   */
  datatype GlyphRange<T> = GlyphRange(start: GlyphIndex, end: GlyphIndex, value: T)

  /** `ClassRange`: its value is `TargetClassID`. */
  type ClassRange = GlyphRange<uint16>

  /** `classFormat1` (a start glyph and one class per following glyph) or `classFormat2` (ranges). */
  datatype Class =
    | ClassFormat1(startGlyph: GlyphIndex, classIDs: seq<uint16>)
    | ClassFormat2(ranges: seq<ClassRange>)

  /** `CoverageRange`: its value is `StartCoverage`. */
  type CoverageRange = GlyphRange<int>

  /** `CoverageList` (format 1, sorted glyphs) or `CoverageRanges` (format 2). */
  datatype Coverage =
    | CoverageList(glyphs: seq<GlyphIndex>)
    | CoverageRanges(ranges: seq<CoverageRange>)

  // ---------------------------------------------------------------- search

  /**
   * Go's `sort.Search(n, f)` on `[lo, hi)` with `f(i) = gi <= keys[i]`: the
   * usual halving binary search.
   */
  function SearchFrom(keys: seq<int>, gi: int, lo: int, hi: int): (r: int)
    requires 0 <= lo <= hi <= |keys|
    ensures lo <= r <= hi
    decreases hi - lo
  {
    if lo < hi then
      var h := (lo + hi) / 2;
      if !(gi <= keys[h]) then SearchFrom(keys, gi, h + 1, hi) else SearchFrom(keys, gi, lo, h)
    else lo
  }

  function Search(keys: seq<int>, gi: int): (r: int)
    ensures 0 <= r <= |keys|
  {
    SearchFrom(keys, gi, 0, |keys|)
  }

  predicate Sorted(keys: seq<int>)
  {
    forall i, j :: 0 <= i < j < |keys| ==> keys[i] <= keys[j]
  }

  /** On sorted keys the search finds the first key at or above `gi`. */
  lemma {:induction false} SearchFromFinds(keys: seq<int>, gi: int, lo: int, hi: int)
    requires 0 <= lo <= hi <= |keys| && Sorted(keys)
    requires forall i :: 0 <= i < lo ==> keys[i] < gi
    requires forall i :: hi <= i < |keys| ==> gi <= keys[i]
    ensures var r := SearchFrom(keys, gi, lo, hi);
            (forall i :: 0 <= i < r ==> keys[i] < gi) && (forall i :: r <= i < |keys| ==> gi <= keys[i])
    decreases hi - lo
  {
    if lo < hi {
      var h := (lo + hi) / 2;
      if !(gi <= keys[h]) {
        SearchFromFinds(keys, gi, h + 1, hi);
      } else {
        SearchFromFinds(keys, gi, lo, h);
      }
    }
  }

  lemma SearchFinds(keys: seq<int>, gi: int)
    requires Sorted(keys)
    ensures var r := Search(keys, gi);
            0 <= r <= |keys| &&
            (forall i :: 0 <= i < r ==> keys[i] < gi) && (forall i :: r <= i < |keys| ==> gi <= keys[i])
  {
    SearchFromFinds(keys, gi, 0, |keys|);
  }

  // ---------------------------------------------------------------- class definitions

  /**
   * `classFormat1.ClassID` as written: the end of the covered span,
   * `startGlyph + len(classIDs)`, is computed in 16-bit glyph-index arithmetic.
   */
  function ClassID1AsWritten(startGlyph: GlyphIndex, classIDs: seq<uint16>, gi: GlyphIndex): (r: (uint16, bool))
    ensures r.1 ==> startGlyph <= gi && (gi as int - startGlyph as int) < |classIDs|
  {
    var end := ToUint16(startGlyph as int + ToUint16(|classIDs|) as int);
    if gi < startGlyph || gi >= end then (0, false)
    else
      assert |classIDs| % TWO16 <= |classIDs|;
      (classIDs[gi - startGlyph], true)
  }

  /** `classFormat1.ClassID` with the span's end compared without wrap-around. */
  function ClassID1(startGlyph: GlyphIndex, classIDs: seq<uint16>, gi: GlyphIndex): (r: (uint16, bool))
    ensures r.1 <==> startGlyph <= gi && (gi as int - startGlyph as int) < |classIDs|
    ensures r.1 ==> r.0 == classIDs[gi as int - startGlyph as int]
    ensures !r.1 ==> r == (0, false)
  {
    if gi < startGlyph || gi as int >= startGlyph as int + |classIDs| then (0, false)
    else (classIDs[gi - startGlyph], true)
  }

  /** The last glyph of the font is not found when the span reaches it. */
  lemma ClassID1WrapLosesLastGlyph()
    ensures ClassID1AsWritten(0xFFFF, [7], 0xFFFF) == (0, false)
    ensures ClassID1(0xFFFF, [7], 0xFFFF) == (7, true)
  {
    assert ToUint16(0xFFFF + 1) == 0;
  }

  /** Below the top of the glyph range the two agree. */
  lemma ClassID1AgreesBelowWrap(startGlyph: GlyphIndex, classIDs: seq<uint16>, gi: GlyphIndex)
    requires startGlyph as int + |classIDs| < TWO16
    ensures ClassID1AsWritten(startGlyph, classIDs, gi) == ClassID1(startGlyph, classIDs, gi)
  {
  }

  /** The range starts, as the keys `sort.Search` scans. */
  function Starts<T>(c: seq<GlyphRange<T>>): (keys: seq<int>)
    ensures |keys| == |c| && forall i :: 0 <= i < |c| ==> keys[i] == c[i].start as int
  {
    seq(|c|, i requires 0 <= i < |c| => c[i].start as int)
  }

  /** Ranges that are each non-empty, sorted, and pairwise disjoint. */
  predicate RangesOrdered<T>(c: seq<GlyphRange<T>>)
  {
    (forall i :: 0 <= i < |c| ==> c[i].start <= c[i].end) &&
    (forall i, j :: 0 <= i < j < |c| ==> c[i].end < c[j].start)
  }

  /** `classFormat2.ClassID`: binary search on the starts, then the range before. */
  function ClassID2(c: seq<ClassRange>, gi: GlyphIndex): (uint16, bool)
  {
    if |c| == 0 then (0, false)
    else
      var idx := Search(Starts(c), gi as int);
      if idx < |c| && gi == c[idx].start then (c[idx].value, true)
      else if idx > 0 && gi >= c[idx - 1].start && gi <= c[idx - 1].end then (c[idx - 1].value, true)
      else (0, false)
  }

  /**
   * On ordered ranges, `classFormat2.ClassID` finds `gi` exactly when some range
   * holds it, and then answers that range's class.
   */
  lemma {:induction false} ClassID2Spec(c: seq<ClassRange>, gi: GlyphIndex)
    requires RangesOrdered(c)
    ensures ClassID2(c, gi).1 <==> exists i :: 0 <= i < |c| && c[i].start <= gi <= c[i].end
    ensures forall i :: 0 <= i < |c| && c[i].start <= gi <= c[i].end ==> ClassID2(c, gi) == (c[i].value, true)
    ensures !ClassID2(c, gi).1 ==> ClassID2(c, gi) == (0, false)
  {
    if |c| > 0 {
      var keys := Starts(c);
      assert Sorted(keys) by {
        forall i, j | 0 <= i < j < |keys|
          ensures keys[i] <= keys[j]
        {
          assert c[i].start <= c[i].end < c[j].start;
        }
      }
      SearchFinds(keys, gi as int);
      var idx := Search(keys, gi as int);
      forall i | 0 <= i < |c| && c[i].start <= gi <= c[i].end
        ensures ClassID2(c, gi) == (c[i].value, true)
      {
        if i >= idx {
          assert gi <= c[i].start;
        }
      }
    }
  }

  /** Go's `class.end - class.start + 1` on 16-bit glyph indices. */
  function Span(start: GlyphIndex, end: GlyphIndex): (n: int)
    ensures 0 <= n < TWO16
    ensures start <= end && end as int - start as int < 0xFFFF ==> n == end as int - start as int + 1
  {
    ToUint16(end as int - start as int + 1) as int
  }

  /** A range of all 65536 glyphs counts as none. */
  lemma FullSpanWraps()
    ensures Span(0, 0xFFFF) == 0
  {
  }

  /** The spans of the ranges added up. */
  function SpanSum<T>(c: seq<GlyphRange<T>>): int
  {
    if c == [] then 0 else SpanSum(c[..|c| - 1]) + Span(c[|c| - 1].start, c[|c| - 1].end)
  }

  /** `GlyphSize` of both class formats. */
  method GlyphSize(c: Class) returns (n: int)
    ensures c.ClassFormat1? ==> n == |c.classIDs|
    ensures c.ClassFormat2? ==> n == SpanSum(c.ranges)
  {
    match c
    case ClassFormat1(_, ids) =>
      n := |ids|;
    case ClassFormat2(ranges) =>
      n := 0;
      var i := 0;
      while i < |ranges|
        invariant 0 <= i <= |ranges|
        invariant n == SpanSum(ranges[..i])
      {
        assert ranges[..i + 1][..i] == ranges[..i];
        n := n + Span(ranges[i].start, ranges[i].end);
        i := i + 1;
      }
      assert ranges[..i] == ranges;
  }

  /** The largest entry of `ids`, 0 for none. */
  function MaxID(ids: seq<uint16>): (m: uint16)
    ensures forall i :: 0 <= i < |ids| ==> ids[i] <= m
    ensures ids == [] ==> m == 0
    ensures ids != [] ==> exists i :: 0 <= i < |ids| && ids[i] == m
  {
    if ids == [] then 0
    else
      var m := MaxID(ids[..|ids| - 1]);
      if ids[|ids| - 1] >= m then ids[|ids| - 1] else m
  }

  function TargetIDs(c: seq<ClassRange>): (ids: seq<uint16>)
    ensures |ids| == |c| && forall i :: 0 <= i < |c| ==> ids[i] == c[i].value
  {
    seq(|c|, i requires 0 <= i < |c| => c[i].value)
  }

  /** The class IDs a class table can answer. */
  function ClassIDs(c: Class): seq<uint16>
  {
    match c
    case ClassFormat1(_, ids) => ids
    case ClassFormat2(ranges) => TargetIDs(ranges)
  }

  /** `Extent` of both formats: one more than the largest class ID. */
  method Extent(c: Class) returns (n: int)
    ensures n == MaxID(ClassIDs(c)) as int + 1
  {
    var ids := ClassIDs(c);
    var max: uint16 := 0;
    var i := 0;
    while i < |ids|
      invariant 0 <= i <= |ids|
      invariant max == MaxID(ids[..i])
    {
      assert ids[..i + 1][..i] == ids[..i];
      if ids[i] >= max {
        max := ids[i];
      }
      i := i + 1;
    }
    assert ids[..i] == ids;
    n := max as int + 1;
  }

  /** `Class.ClassID`, dispatching on the format. */
  function ClassID(c: Class, gi: GlyphIndex): (uint16, bool)
  {
    match c
    case ClassFormat1(start, ids) => ClassID1(start, ids, gi)
    case ClassFormat2(ranges) => ClassID2(ranges, gi)
  }

  /** Every class ID `ClassID` answers is below `Extent`. */
  lemma ClassIDBelowExtent(c: Class, gi: GlyphIndex)
    requires ClassID(c, gi).1
    ensures ClassID(c, gi).0 as int < MaxID(ClassIDs(c)) as int + 1
  {
    var ids := ClassIDs(c);
    match c
    case ClassFormat1(start, _) =>
      assert ClassID(c, gi).0 == ids[gi as int - start as int];
    case ClassFormat2(ranges) =>
      var idx := Search(Starts(ranges), gi as int);
      if idx < |ranges| && gi == ranges[idx].start {
        assert ClassID(c, gi).0 == ids[idx];
      } else {
        assert ClassID(c, gi).0 == ids[idx - 1];
      }
  }

  // ---------------------------------------------------------------- coverage

  function GlyphKeys(gs: seq<GlyphIndex>): (keys: seq<int>)
    ensures |keys| == |gs| && forall i :: 0 <= i < |gs| ==> keys[i] == gs[i] as int
  {
    seq(|gs|, i requires 0 <= i < |gs| => gs[i] as int)
  }

  /** `CoverageList.Index`. */
  function ListIndex(cl: seq<GlyphIndex>, gi: GlyphIndex): (int, bool)
  {
    var idx := Search(GlyphKeys(cl), gi as int);
    if idx < |cl| && cl[idx] == gi then (idx, true) else (0, false)
  }

  predicate StrictlySorted(gs: seq<GlyphIndex>)
  {
    forall i, j :: 0 <= i < j < |gs| ==> gs[i] < gs[j]
  }

  /** On a sorted list, `Index(gi)` is `(i, true)` exactly when `cl[i] == gi`, so it is injective. */
  lemma ListIndexSpec(cl: seq<GlyphIndex>, gi: GlyphIndex)
    requires StrictlySorted(cl)
    ensures ListIndex(cl, gi).1 <==> gi in cl
    ensures forall i :: 0 <= i < |cl| && cl[i] == gi ==> ListIndex(cl, gi) == (i, true)
    ensures !ListIndex(cl, gi).1 ==> ListIndex(cl, gi) == (0, false)
  {
    var keys := GlyphKeys(cl);
    SearchFinds(keys, gi as int);
    var idx := Search(keys, gi as int);
    forall i | 0 <= i < |cl| && cl[i] == gi
      ensures ListIndex(cl, gi) == (i, true)
    {
      assert gi as int <= keys[i];
    }
  }

  /** Every index a list answers is below its size. */
  lemma ListIndexBelowSize(cl: seq<GlyphIndex>, gi: GlyphIndex)
    requires ListIndex(cl, gi).1
    ensures 0 <= ListIndex(cl, gi).0 < |cl| && cl[ListIndex(cl, gi).0] == gi
  {
  }

  /** The GDEF test's ligature-caret coverage: glyphs 380..383 get indices 0..3. */
  lemma GdefCoverageIndices()
    ensures var cl: seq<GlyphIndex> := [380, 381, 382, 383];
            ListIndex(cl, 380) == (0, true) && ListIndex(cl, 381) == (1, true) &&
            ListIndex(cl, 382) == (2, true) && ListIndex(cl, 383) == (3, true) &&
            !ListIndex(cl, 379).1 && !ListIndex(cl, 384).1
  {
    var cl: seq<GlyphIndex> := [380, 381, 382, 383];
    ListIndexSpec(cl, 380);
    ListIndexSpec(cl, 381);
    ListIndexSpec(cl, 382);
    ListIndexSpec(cl, 383);
    ListIndexSpec(cl, 379);
    ListIndexSpec(cl, 384);
  }

  /** `CoverageRanges.Index`. */
  function RangesIndex(c: seq<CoverageRange>, gi: GlyphIndex): (int, bool)
  {
    if |c| == 0 then (0, false)
    else
      var idx := Search(Starts(c), gi as int);
      if idx < |c| && gi == c[idx].start then (c[idx].value, true)
      else if idx > 0 && gi >= c[idx - 1].start && gi <= c[idx - 1].end
      then (c[idx - 1].value + (gi as int - c[idx - 1].start as int), true)
      else (0, false)
  }

  /**
   * On ordered ranges, `Index(gi)` is found exactly when a range holds `gi`,
   * and is that range's `StartCoverage` plus the offset of `gi` in it.
   */
  lemma {:induction false} RangesIndexSpec(c: seq<CoverageRange>, gi: GlyphIndex)
    requires RangesOrdered(c)
    ensures RangesIndex(c, gi).1 <==> exists i :: 0 <= i < |c| && c[i].start <= gi <= c[i].end
    ensures forall i :: 0 <= i < |c| && c[i].start <= gi <= c[i].end ==>
              RangesIndex(c, gi) == (c[i].value + (gi as int - c[i].start as int), true)
    ensures !RangesIndex(c, gi).1 ==> RangesIndex(c, gi) == (0, false)
  {
    if |c| > 0 {
      var keys := Starts(c);
      assert Sorted(keys) by {
        forall i, j | 0 <= i < j < |keys|
          ensures keys[i] <= keys[j]
        {
          assert c[i].start <= c[i].end < c[j].start;
        }
      }
      SearchFinds(keys, gi as int);
      var idx := Search(keys, gi as int);
      forall i | 0 <= i < |c| && c[i].start <= gi <= c[i].end
        ensures RangesIndex(c, gi) == (c[i].value + (gi as int - c[i].start as int), true)
      {
        if i >= idx {
          assert gi <= c[i].start;
        }
      }
    }
  }

  /** `Coverage.Index`, dispatching on the format. */
  function Index(c: Coverage, gi: GlyphIndex): (int, bool)
  {
    match c
    case CoverageList(gs) => ListIndex(gs, gi)
    case CoverageRanges(rs) => RangesIndex(rs, gi)
  }

  /** `Coverage.Size` of both formats. */
  method Size(c: Coverage) returns (n: int)
    ensures c.CoverageList? ==> n == |c.glyphs|
    ensures c.CoverageRanges? ==> n == SpanSum(c.ranges)
  {
    match c
    case CoverageList(gs) =>
      n := |gs|;
    case CoverageRanges(ranges) =>
      n := 0;
      var i := 0;
      while i < |ranges|
        invariant 0 <= i <= |ranges|
        invariant n == SpanSum(ranges[..i])
      {
        assert ranges[..i + 1][..i] == ranges[..i];
        n := n + Span(ranges[i].start, ranges[i].end);
        i := i + 1;
      }
      assert ranges[..i] == ranges;
  }

  /** A span sum counts every glyph of every range when no range is the full 65536. */
  lemma {:induction false} SpanSumCounts(c: seq<CoverageRange>)
    requires forall i :: 0 <= i < |c| ==> c[i].start <= c[i].end && c[i].end as int - c[i].start as int < 0xFFFF
    ensures SpanSum(c) == RangeLengths(c)
  {
    if c != [] {
      SpanSumCounts(c[..|c| - 1]);
    }
  }

  function RangeLengths(c: seq<CoverageRange>): int
  {
    if c == [] then 0 else RangeLengths(c[..|c| - 1]) + (c[|c| - 1].end as int - c[|c| - 1].start as int + 1)
  }

  // ---------------------------------------------------------------- parsers

  /** `num` big-endian 16-bit words from offset `at`. */
  function Words(buf: seq<byte>, at: int, num: int): (ws: seq<uint16>)
    requires 0 <= at && 0 <= num && at + 2 * num <= |buf|
    ensures |ws| == num && forall i :: 0 <= i < num ==> ws[i] == BE16(buf, at + 2 * i)
  {
    seq(num, i requires 0 <= i < num => BE16(buf, at + 2 * i))
  }

  /** The loops that fill a fresh slice with `num` big-endian words. */
  method ReadWords(buf: seq<byte>, at: int, num: int) returns (ws: seq<uint16>)
    requires 0 <= at && 0 <= num && at + 2 * num <= |buf|
    ensures ws == Words(buf, at, num)
  {
    ws := [];
    var i := 0;
    while i < num
      invariant 0 <= i <= num && ws == Words(buf, at, i)
    {
      ws := ws + [BE16(buf, at + 2 * i)];
      i := i + 1;
    }
  }

  /** Coverage format 1 body: a count, then that many glyphs. */
  function CoverageListOf(buf: seq<byte>): (r: Result<seq<GlyphIndex>>)
    ensures r.Ok? <==> 2 <= |buf| && 2 + 2 * BE16(buf, 0) as int <= |buf|
    ensures r.Ok? ==> r.value == Words(buf, 2, BE16(buf, 0) as int)
  {
    if |buf| < 2 then Err("invalid GPOS kern")
    else
      var num := BE16(buf, 0) as int;
      if |buf| < 2 + num * 2 then Err("invalid GPOS kern")
      else Ok(Words(buf, 2, num))
  }

  /** `fetchCoverageList`. */
  method FetchCoverageList(buf: seq<byte>) returns (r: Result<seq<GlyphIndex>>)
    ensures r == CoverageListOf(buf)
  {
    if |buf| < 2 {
      return Err("invalid GPOS kern");
    }
    var num := BE16(buf, 0) as int;
    if |buf| < 2 + num * 2 {
      return Err("invalid GPOS kern");
    }
    var out := ReadWords(buf, 2, num);
    return Ok(out);
  }

  /** The records of a 6-byte-per-entry range table. */
  function RangeWords(buf: seq<byte>, at: int, num: int): (rs: seq<(uint16, uint16, uint16)>)
    requires 0 <= at && 0 <= num && at + 6 * num <= |buf|
    ensures |rs| == num
    ensures forall i :: 0 <= i < num ==>
              rs[i] == (BE16(buf, at + 6 * i), BE16(buf, at + 6 * i + 2), BE16(buf, at + 6 * i + 4))
  {
    seq(num, i requires 0 <= i < num => (BE16(buf, at + 6 * i), BE16(buf, at + 6 * i + 2), BE16(buf, at + 6 * i + 4)))
  }

  /** Coverage format 2 body: a count, then (start, end, startCoverage) records. */
  function CoverageRangesOf(buf: seq<byte>): (r: Result<seq<CoverageRange>>)
    ensures r.Ok? <==> 2 <= |buf| && 2 + 6 * BE16(buf, 0) as int <= |buf|
    ensures r.Ok? ==> (|r.value| == BE16(buf, 0) as int &&
              forall i :: 0 <= i < |r.value| ==>
                r.value[i] == GlyphRange(BE16(buf, 2 + 6 * i), BE16(buf, 2 + 6 * i + 2), BE16(buf, 2 + 6 * i + 4) as int))
  {
    if |buf| < 2 then Err("invalid GPOS kern")
    else
      var num := BE16(buf, 0) as int;
      if |buf| < 2 + num * 6 then Err("invalid GPOS kern")
      else Ok(seq(num, i requires 0 <= i < num =>
                GlyphRange(BE16(buf, 2 + 6 * i), BE16(buf, 2 + 6 * i + 2), BE16(buf, 2 + 6 * i + 4) as int)))
  }

  /** `fetchCoverageRange`. */
  method FetchCoverageRange(buf: seq<byte>) returns (r: Result<seq<CoverageRange>>)
    ensures r == CoverageRangesOf(buf)
  {
    if |buf| < 2 {
      return Err("invalid GPOS kern");
    }
    var num := BE16(buf, 0) as int;
    if |buf| < 2 + num * 6 {
      return Err("invalid GPOS kern");
    }
    var out: seq<CoverageRange> := [];
    var i := 0;
    while i < num
      invariant 0 <= i <= num && |out| == i
      invariant forall m :: 0 <= m < i ==>
                  out[m] == GlyphRange(BE16(buf, 2 + 6 * m), BE16(buf, 2 + 6 * m + 2), BE16(buf, 2 + 6 * m + 4) as int)
    {
      out := out + [GlyphRange(BE16(buf, 2 + 6 * i), BE16(buf, 2 + 6 * i + 2), BE16(buf, 2 + 6 * i + 4) as int)];
      i := i + 1;
    }
    assert out == seq(num, i requires 0 <= i < num =>
                   GlyphRange(BE16(buf, 2 + 6 * i), BE16(buf, 2 + 6 * i + 2), BE16(buf, 2 + 6 * i + 4) as int));
    return Ok(out);
  }

  /** `parseCoverage`: the format word at `offset` selects the body parser. */
  function CoverageOf(buf: seq<byte>, offset: uint32): (r: Result<Coverage>)
    ensures |buf| < offset as int + 2 ==> r.Err?
    ensures |buf| >= offset as int + 2 && BE16(buf, offset as int) != 1 && BE16(buf, offset as int) != 2 ==> r.Err?
  {
    if |buf| < offset as int + 2 then Err("invalid coverage table")
    else
      var b := buf[offset..];
      var format := BE16(b, 0);
      if format == 1 then
        match CoverageListOf(b[2..])
        case Ok(gs) => Ok(CoverageList(gs))
        case Err(e) => Err(e)
      else if format == 2 then
        match CoverageRangesOf(b[2..])
        case Ok(rs) => Ok(CoverageRanges(rs))
        case Err(e) => Err(e)
      else Err("unsupported coverage format")
  }

  /** `parseCoverage`. */
  method ParseCoverage(buf: seq<byte>, offset: uint32) returns (r: Result<Coverage>)
    ensures r == CoverageOf(buf, offset)
  {
    if |buf| < offset as int + 2 {
      return Err("invalid coverage table");
    }
    var b := buf[offset..];
    var format := BE16(b, 0);
    if format == 1 {
      var l := FetchCoverageList(b[2..]);
      match l
      case Ok(gs) => return Ok(CoverageList(gs));
      case Err(e) => return Err(e);
    } else if format == 2 {
      var rs := FetchCoverageRange(b[2..]);
      match rs
      case Ok(v) => return Ok(CoverageRanges(v));
      case Err(e) => return Err(e);
    }
    return Err("unsupported coverage format");
  }

  /**
   * `parseUint16s` (a helper outside this file): `num` words, or an error
   * when fewer than `2 * num` bytes remain.
   */
  function Uint16sOf(buf: seq<byte>, num: int): (r: Result<seq<uint16>>)
    requires num >= 0
    ensures r.Ok? <==> 2 * num <= |buf|
    ensures r.Ok? ==> r.value == Words(buf, 0, num)
  {
    if |buf| < 2 * num then Err("EOF") else Ok(Words(buf, 0, num))
  }

  /** Class format 1 body (after the format word): start glyph, count, class values. */
  function ClassFormat1Of(buf: seq<byte>, extended: bool): (r: Result<Class>)
    ensures r.Ok? <==> 4 <= |buf| && 4 + (if extended then 2 else 1) * BE16(buf, 2) as int <= |buf|
    ensures r.Ok? ==> r.value.ClassFormat1? && r.value.startGlyph == BE16(buf, 0) &&
                      |r.value.classIDs| == BE16(buf, 2) as int
  {
    if |buf| < 4 then Err("invalid class format 1 (EOF)")
    else
      var start, num := BE16(buf, 0), BE16(buf, 2) as int;
      if extended then
        match Uint16sOf(buf[4..], num)
        case Ok(ids) => Ok(ClassFormat1(start, ids))
        case Err(_) => Err("invalid class format 1")
      else if |buf| < 4 + num then Err("invalid class format 1 (EOF)")
      else Ok(ClassFormat1(start, seq(num, i requires 0 <= i < num => buf[4 + i] as uint16)))
  }

  /** `parseClassFormat1`. */
  method ParseClassFormat1(buf: seq<byte>, extended: bool) returns (r: Result<Class>)
    ensures r == ClassFormat1Of(buf, extended)
  {
    if |buf| < 4 {
      return Err("invalid class format 1 (EOF)");
    }
    var start, num := BE16(buf, 0), BE16(buf, 2) as int;
    if extended {
      if |buf[4..]| < 2 * num {
        return Err("invalid class format 1");
      }
      var ids := ReadWords(buf[4..], 0, num);
      return Ok(ClassFormat1(start, ids));
    }
    if |buf| < 4 + num {
      return Err("invalid class format 1 (EOF)");
    }
    var ids: seq<uint16> := [];
    var i := 0;
    while i < num
      invariant 0 <= i <= num && |ids| == i
      invariant forall m :: 0 <= m < i ==> ids[m] == buf[4 + m] as uint16
    {
      ids := ids + [buf[4 + i] as uint16];
      i := i + 1;
    }
    assert ids == seq(num, i requires 0 <= i < num => buf[4 + i] as uint16);
    return Ok(ClassFormat1(start, ids));
  }

  /** Class format 2 (from the format word on): count, then (start, end, class) records. */
  function ClassFormat2Of(buf: seq<byte>): (r: Result<Class>)
    ensures r.Ok? <==> 4 <= |buf| && 4 + 6 * BE16(buf, 2) as int <= |buf|
    ensures r.Ok? ==> (r.value.ClassFormat2? && |r.value.ranges| == BE16(buf, 2) as int &&
              forall i :: 0 <= i < |r.value.ranges| ==>
                r.value.ranges[i] == GlyphRange(BE16(buf, 4 + 6 * i), BE16(buf, 4 + 6 * i + 2), BE16(buf, 4 + 6 * i + 4)))
  {
    if |buf| < 4 then Err("invalid class format 2 (EOF)")
    else
      var num := BE16(buf, 2) as int;
      if |buf| < 4 + num * 6 then Err("invalid class format 2 (EOF)")
      else Ok(ClassFormat2(seq(num, i requires 0 <= i < num =>
                GlyphRange(BE16(buf, 4 + 6 * i), BE16(buf, 4 + 6 * i + 2), BE16(buf, 4 + 6 * i + 4)))))
  }

  /** `parseClassLookupFormat2`. */
  method ParseClassLookupFormat2(buf: seq<byte>) returns (r: Result<Class>)
    ensures r == ClassFormat2Of(buf)
  {
    if |buf| < 4 {
      return Err("invalid class format 2 (EOF)");
    }
    var num := BE16(buf, 2) as int;
    if |buf| < 4 + num * 6 {
      return Err("invalid class format 2 (EOF)");
    }
    var out: seq<ClassRange> := [];
    var i := 0;
    while i < num
      invariant 0 <= i <= num && |out| == i
      invariant forall m :: 0 <= m < i ==>
                  out[m] == GlyphRange(BE16(buf, 4 + 6 * m), BE16(buf, 4 + 6 * m + 2), BE16(buf, 4 + 6 * m + 4))
    {
      out := out + [GlyphRange(BE16(buf, 4 + 6 * i), BE16(buf, 4 + 6 * i + 2), BE16(buf, 4 + 6 * i + 4))];
      i := i + 1;
    }
    assert out == seq(num, i requires 0 <= i < num =>
                   GlyphRange(BE16(buf, 4 + 6 * i), BE16(buf, 4 + 6 * i + 2), BE16(buf, 4 + 6 * i + 4)));
    return Ok(ClassFormat2(out));
  }

  /** `parseClass`: the format word at `offset` selects the body parser. */
  function ClassOf(buf: seq<byte>, offset: uint16): (r: Result<Class>)
    ensures |buf| < offset as int + 2 ==> r.Err?
    ensures |buf| >= offset as int + 2 && BE16(buf, offset as int) != 1 && BE16(buf, offset as int) != 2 ==> r.Err?
  {
    if |buf| < offset as int + 2 then Err("invalid class table (EOF)")
    else
      var b := buf[offset..];
      var format := BE16(b, 0);
      if format == 1 then ClassFormat1Of(b[2..], true)
      else if format == 2 then ClassFormat2Of(b)
      else Err("unsupported class definition format")
  }

  /** `parseClass`. */
  method ParseClass(buf: seq<byte>, offset: uint16) returns (r: Result<Class>)
    ensures r == ClassOf(buf, offset)
  {
    if |buf| < offset as int + 2 {
      return Err("invalid class table (EOF)");
    }
    var b := buf[offset..];
    var format := BE16(b, 0);
    if format == 1 {
      r := ParseClassFormat1(b[2..], true);
    } else if format == 2 {
      r := ParseClassLookupFormat2(b);
    } else {
      r := Err("unsupported class definition format");
    }
  }

  // ---------------------------------------------------------------- encoders (round-trip partners)

  function Enc16(v: uint16): (s: seq<byte>)
    ensures |s| == 2 && BE16(s, 0) == v
  {
    [(v as int / 0x100) as byte, (v as int % 0x100) as byte]
  }

  function EncWords(ws: seq<uint16>): (s: seq<byte>)
    ensures |s| == 2 * |ws|
  {
    if ws == [] then [] else EncWords(ws[..|ws| - 1]) + Enc16(ws[|ws| - 1])
  }

  lemma {:induction false} EncWordsRead(ws: seq<uint16>, pre: seq<byte>, post: seq<byte>)
    ensures Words(pre + EncWords(ws) + post, |pre|, |ws|) == ws
    decreases |ws|
  {
    if ws != [] {
      var front, w := ws[..|ws| - 1], ws[|ws| - 1];
      assert pre + EncWords(ws) + post == pre + EncWords(front) + (Enc16(w) + post);
      EncWordsRead(front, pre, Enc16(w) + post);
      var buf := pre + EncWords(ws) + post;
      var at := |pre| + 2 * |front|;
      assert buf[at..at + 2] == Enc16(w);
      assert BE16(buf, at) == BE16(Enc16(w), 0);
      forall i | 0 <= i < |front|
        ensures Words(buf, |pre|, |ws|)[i] == ws[i]
      {
        assert Words(pre + EncWords(front) + (Enc16(w) + post), |pre|, |front|)[i] == front[i];
      }
    }
  }

  /** The bytes of a format-1 coverage table: format, count, glyphs. */
  function EncodeCoverageList(gs: seq<GlyphIndex>): seq<byte>
    requires |gs| < TWO16
  {
    Enc16(1) + Enc16(|gs| as uint16) + EncWords(gs)
  }

  /** Parsing an encoded format-1 coverage table gives the glyph list back. */
  lemma CoverageListRoundTrip(gs: seq<GlyphIndex>)
    requires |gs| < TWO16
    ensures CoverageOf(EncodeCoverageList(gs), 0) == Ok(CoverageList(gs))
  {
    var buf := EncodeCoverageList(gs);
    assert buf[0..] == buf;
    assert BE16(buf, 0) == 1 by { assert buf[0..2] == Enc16(1); }
    var body := buf[2..];
    assert body == Enc16(|gs| as uint16) + EncWords(gs);
    assert BE16(body, 0) == |gs| as uint16;
    EncWordsRead(gs, Enc16(|gs| as uint16), []);
    assert body + [] == body;
  }

  /** The bytes of a format-1 class table with 16-bit class values. */
  function EncodeClassFormat1(start: GlyphIndex, ids: seq<uint16>): seq<byte>
    requires |ids| < TWO16
  {
    Enc16(1) + Enc16(start) + Enc16(|ids| as uint16) + EncWords(ids)
  }

  /** Parsing an encoded format-1 class table gives it back. */
  lemma ClassFormat1RoundTrip(start: GlyphIndex, ids: seq<uint16>)
    requires |ids| < TWO16
    ensures ClassOf(EncodeClassFormat1(start, ids), 0) == Ok(ClassFormat1(start, ids))
  {
    var buf := EncodeClassFormat1(start, ids);
    assert buf[0..] == buf;
    assert BE16(buf, 0) == 1 by { assert buf[0..2] == Enc16(1); }
    var body := buf[2..];
    assert body == Enc16(start) + Enc16(|ids| as uint16) + EncWords(ids);
    assert BE16(body, 0) == start by { assert body[0..2] == Enc16(start); }
    assert BE16(body, 2) == |ids| as uint16 by { assert body[2..4] == Enc16(|ids| as uint16); }
    var rest := body[4..];
    assert rest == EncWords(ids);
    EncWordsRead(ids, [], []);
    assert [] + rest + [] == rest;
  }
}

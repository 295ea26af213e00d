// The TrueType 'loca' and 'glyf' tables: glyph offsets (short and long
// formats), glyph headers, simple glyphs (end points, instructions, run-length
// flags, delta-encoded coordinates) and composite glyphs (component records).

module TTGlyf {
  import opened Common
  import opened TTCommon

  // ---------------------------------------------------------------- loca

  /** Bytes a 'loca' table for `n` glyphs needs: n + 1 entries of 4 or 2 bytes. */
  function LocaSize(n: nat, isLong: bool): nat
  {
    if isLong then 4 * (n + 1) else 2 * (n + 1)
  }

  /** Entry `i` of the table; the short format stores half the offset. */
  function LocaEntry(data: seq<byte>, i: nat, isLong: bool): uint32
    requires (if isLong then 4 * i + 4 else 2 * i + 2) <= |data|
  {
    if isLong then BE32(data, 4 * i) else (2 * BE16(data, 2 * i) as int) as uint32
  }

  /** The offsets of a 'loca' table: an error exactly when the data is too short. */
  function LocaOf(data: seq<byte>, n: nat, isLong: bool): (r: Result<seq<uint32>>)
    ensures r.Ok? <==> |data| >= LocaSize(n, isLong)
    ensures r.Ok? ==> |r.value| == n + 1
  {
    if |data| < LocaSize(n, isLong) then Err("invalid location table (EOF)")
    else Ok(seq(n + 1, i requires 0 <= i <= n => LocaEntry(data, i, isLong)))
  }

  method ParseTableLoca(data: seq<byte>, numGlyphs: nat, isLong: bool) returns (r: Result<seq<uint32>>)
    ensures r == LocaOf(data, numGlyphs, isLong)
  {
    if |data| < LocaSize(numGlyphs, isLong) {
      return Err("invalid location table (EOF)");
    }
    var out := new uint32[numGlyphs + 1];
    for i := 0 to out.Length
      invariant forall k :: 0 <= k < i ==> out[k] == LocaEntry(data, k, isLong)
    {
      out[i] := LocaEntry(data, i, isLong);
    }
    assert out[..] == seq(numGlyphs + 1, i requires 0 <= i <= numGlyphs => LocaEntry(data, i, isLong));
    return Ok(out[..]);
  }

  function Enc32(v: uint32): (s: seq<byte>)
    ensures |s| == 4
  {
    Enc16((v as int / TWO16) as uint16) + Enc16((v as int % TWO16) as uint16)
  }

  function EncLongs(vs: seq<uint32>): (s: seq<byte>)
    ensures |s| == 4 * |vs|
  {
    if vs == [] then [] else EncLongs(vs[..|vs| - 1]) + Enc32(vs[|vs| - 1])
  }

  lemma Enc32Read(v: uint32, pre: seq<byte>, post: seq<byte>)
    ensures BE32(pre + Enc32(v) + post, |pre|) == v
  {
    var buf := pre + Enc32(v) + post;
    var hi, lo := (v as int / TWO16) as uint16, (v as int % TWO16) as uint16;
    assert buf == pre + Enc16(hi) + (Enc16(lo) + post);
    assert buf[|pre|..|pre| + 2] == Enc16(hi);
    assert buf[|pre| + 2..|pre| + 4] == Enc16(lo);
    assert BE16(buf, |pre|) == BE16(Enc16(hi), 0);
    assert BE16(buf, |pre| + 2) == BE16(Enc16(lo), 0);
  }

  lemma {:induction false} EncLongsRead(vs: seq<uint32>, post: seq<byte>, i: nat)
    requires i < |vs|
    ensures 4 * i + 4 <= |EncLongs(vs) + post| && BE32(EncLongs(vs) + post, 4 * i) == vs[i]
    decreases |vs|
  {
    var front, v := vs[..|vs| - 1], vs[|vs| - 1];
    if i == |vs| - 1 {
      assert EncLongs(vs) + post == EncLongs(front) + Enc32(v) + post;
      Enc32Read(v, EncLongs(front), post);
    } else {
      assert EncLongs(vs) + post == EncLongs(front) + (Enc32(v) + post);
      EncLongsRead(front, Enc32(v) + post, i);
    }
  }

  /** A 'loca' table whose entries read as `offsets`. */
  lemma LocaFromEntries(data: seq<byte>, n: nat, isLong: bool, offsets: seq<uint32>)
    requires |data| >= LocaSize(n, isLong) && |offsets| == n + 1
    requires forall i :: 0 <= i <= n ==> LocaEntry(data, i, isLong) == offsets[i]
    ensures LocaOf(data, n, isLong) == Ok(offsets)
  {
    assert LocaOf(data, n, isLong).value == offsets;
  }

  /** A long-format table written from its offsets reads back as those offsets. */
  lemma LocaLongRoundTrip(offsets: seq<uint32>, post: seq<byte>)
    requires |offsets| >= 1
    ensures LocaOf(EncLongs(offsets) + post, |offsets| - 1, true) == Ok(offsets)
  {
    var data := EncLongs(offsets) + post;
    forall i | 0 <= i < |offsets|
      ensures LocaEntry(data, i, true) == offsets[i]
    {
      EncLongsRead(offsets, post, i);
    }
    LocaFromEntries(data, |offsets| - 1, true, offsets);
  }

  lemma {:induction false} ShortEntryRead(halves: seq<uint16>, post: seq<byte>, i: nat)
    requires i < |halves|
    ensures 2 * i + 2 <= |EncWords(halves) + post|
    ensures LocaEntry(EncWords(halves) + post, i, false) == (2 * halves[i] as int) as uint32
    decreases |halves|
  {
    var front, w := halves[..|halves| - 1], halves[|halves| - 1];
    if i == |halves| - 1 {
      var buf := EncWords(halves) + post;
      assert buf == EncWords(front) + Enc16(w) + post;
      assert buf[2 * i..2 * i + 2] == Enc16(w);
      assert BE16(buf, 2 * i) == BE16(Enc16(w), 0);
    } else {
      assert EncWords(halves) + post == EncWords(front) + (Enc16(w) + post);
      ShortEntryRead(front, Enc16(w) + post, i);
    }
  }

  /** A short-format table of halved offsets reads back as the doubled values. */
  lemma LocaShortRoundTrip(halves: seq<uint16>, post: seq<byte>)
    requires |halves| >= 1
    ensures LocaOf(EncWords(halves) + post, |halves| - 1, false).Ok?
    ensures forall i :: 0 <= i < |halves| ==>
      LocaOf(EncWords(halves) + post, |halves| - 1, false).value[i] as int == 2 * halves[i] as int
  {
    var data := EncWords(halves) + post;
    forall i | 0 <= i < |halves|
      ensures LocaOf(data, |halves| - 1, false).value[i] as int == 2 * halves[i] as int
    {
      ShortEntryRead(halves, post, i);
    }
  }

  // ---------------------------------------------------------------- instructions

  /** An instruction block: a 16-bit length L, then L bytes; returns them and the rest. */
  function GlyphInstructionOf(data: seq<byte>): (r: Result<(seq<byte>, seq<byte>)>)
    ensures r.Ok? <==> |data| >= 2 && |data| >= 2 + BE16(data, 0) as int
    ensures r.Ok? ==> |r.value.0| == BE16(data, 0) as int && r.value.0 + r.value.1 == data[2..]
  {
    if |data| < 2 then Err("invalid glyph instructions (EOF)")
    else
      var n := BE16(data, 0) as int;
      if |data| < 2 + n then Err("invalid glyph instructions (EOF)")
      else
        assert data[2..2 + n] + data[2 + n..] == data[2..];
        Ok((data[2..2 + n], data[2 + n..]))
  }

  /** Writing the length before the instructions makes them read back. */
  lemma InstructionRoundTrip(ins: seq<byte>, rest: seq<byte>)
    requires |ins| < TWO16
    ensures GlyphInstructionOf(Enc16(|ins| as uint16) + ins + rest) == Ok((ins, rest))
  {
    var data := Enc16(|ins| as uint16) + ins + rest;
    assert data[0..2] == Enc16(|ins| as uint16);
    assert BE16(data, 0) == BE16(Enc16(|ins| as uint16), 0);
    assert data[2..2 + |ins|] == ins && data[2 + |ins|..] == rest;
  }

  // ---------------------------------------------------------------- results built piece by piece

  /** Put `xs` in front of the values of a successful partial parse. */
  function Cons<T>(xs: seq<T>, r: Result<(seq<T>, seq<byte>)>): Result<(seq<T>, seq<byte>)>
  {
    if r.Err? then Err(r.reason) else Ok((xs + r.value.0, r.value.1))
  }

  lemma ConsNil<T>(r: Result<(seq<T>, seq<byte>)>)
    ensures Cons([], r) == r
  {
    if r.Ok? {
      assert [] + r.value.0 == r.value.0;
    }
  }

  lemma ConsAssoc<T>(a: seq<T>, b: seq<T>, r: Result<(seq<T>, seq<byte>)>)
    ensures Cons(a, Cons(b, r)) == Cons(a + b, r)
  {
    if r.Ok? {
      assert a + (b + r.value.0) == (a + b) + r.value.0;
    }
  }

  // ---------------------------------------------------------------- simple glyph flags

  const XShortVector: bv8 := 0x02
  const YShortVector: bv8 := 0x04
  const RepeatFlag: bv8 := 0x08
  const XIsSameOrPositive: bv8 := 0x10
  const YIsSameOrPositive: bv8 := 0x20

  /** Go's `flag&mask != 0` on a flag byte. */
  predicate Set8(flag: byte, mask: bv8)
  {
    (flag as bv8) & mask != 0
  }

  /** `n` copies of a flag. */
  function Copies(flag: byte, n: nat): (s: seq<byte>)
    ensures |s| == n && forall k :: 0 <= k < n ==> s[k] == flag
  {
    if n == 0 then [] else [flag] + Copies(flag, n - 1)
  }

  /**
   * One turn of the flag loop, with `c` flags still missing: the flag, the
   * number of repeats (from the byte after it when the repeat bit is set,
   * clamped to `c - 1`, else 0) and the bytes after them.
   */
  function FlagStep(d: seq<byte>, c: nat): (r: Result<(byte, nat, seq<byte>)>)
    requires c >= 1
    ensures r.Ok? ==> r.value.1 < c
    ensures r.Ok? <==> |d| >= 1 && (Set8(d[0], RepeatFlag) ==> |d| >= 2)
    ensures r.Ok? ==> r.value.0 == d[0] && r.value.2 == d[if Set8(d[0], RepeatFlag) then 2 else 1..]
    ensures r.Ok? && !Set8(d[0], RepeatFlag) ==> r.value.1 == 0
  {
    if |d| == 0 then Err("invalid simple glyph data flags (EOF)")
    else if !Set8(d[0], RepeatFlag) then Ok((d[0], 0 as nat, d[1..]))
    else if |d| < 2 then Err("invalid simple glyph data flags (EOF)")
    else
      var rep: nat := if d[1] as int + 1 > c then c - 1 else d[1] as int;
      Ok((d[0], rep, d[2..]))
  }

  /**
   * The flag array of a simple glyph: `count` flags, where a flag carrying the
   * repeat bit is followed by a count of further copies, clamped to the flags
   * still missing. Returns the flags and the bytes after them.
   */
  function FlagsOf(data: seq<byte>, count: nat): (r: Result<(seq<byte>, seq<byte>)>)
    ensures r.Ok? ==> |r.value.0| == count
    decreases count
  {
    if count == 0 then Ok(([], data))
    else
      var st := FlagStep(data, count);
      if st.Err? then Err(st.reason)
      else
        var flag, rep, rest := st.value.0, st.value.1, st.value.2;
        Cons(Copies(flag, rep + 1), FlagsOf(rest, count - 1 - rep))
  }

  /** Without repeat bits, the flags are the next `count` bytes. */
  lemma {:induction false} FlagsWithoutRepeat(data: seq<byte>, count: nat)
    requires count <= |data|
    requires forall i :: 0 <= i < count ==> !Set8(data[i], RepeatFlag)
    ensures FlagsOf(data, count) == Ok((data[..count], data[count..]))
    decreases count
  {
    if count > 0 {
      FlagsWithoutRepeat(data[1..], count - 1);
      assert Copies(data[0], 1) == [data[0]];
      assert [data[0]] + data[1..][..count - 1] == data[..count];
      assert data[1..][count - 1..] == data[count..];
    }
  }

  /** Write `flag` into `flags[from..to]` (a flag and its repeats). */
  method FillRun(flags: array<byte>, from: int, to: int, flag: byte)
    requires 0 <= from <= to <= flags.Length
    modifies flags
    ensures flags[..to] == old(flags[..from]) + Copies(flag, to - from)
  {
    for j := from to to
      invariant forall k :: 0 <= k < flags.Length ==> flags[k] == (if from <= k < j then flag else old(flags[k]))
    {
      flags[j] := flag;
    }
    assert forall k :: 0 <= k < to ==> flags[..to][k] == (old(flags[..from]) + Copies(flag, to - from))[k];
  }

  /**
   * Flags parsed so far followed by one more turn of the loop, with `c` of
   * `n` flags missing; the turn ends at flag `i1` with the rest `d1`.
   */
  lemma FlagsAdvance(total: Result<(seq<byte>, seq<byte>)>, pre: seq<byte>, d: seq<byte>, c: nat,
                     n: nat, i1: nat, run: seq<byte>, d1: seq<byte>)
    requires c >= 1 && FlagStep(d, c).Ok?
    requires total == Cons(pre, FlagsOf(d, c))
    requires run == Copies(FlagStep(d, c).value.0, FlagStep(d, c).value.1 + 1) && d1 == FlagStep(d, c).value.2
    requires i1 == n - c + |run| <= n
    ensures total == Cons(pre + run, FlagsOf(d1, n - i1))
  {
    ConsAssoc(pre, run, FlagsOf(d1, n - i1));
  }

  /** One turn of the flag loop: read a flag and its repeats and write them at `i`. */
  method ReadFlag(flags: array<byte>, i: nat, d: seq<byte>, ghost c: nat) returns (ok: bool, i1: nat, d1: seq<byte>, ghost run: seq<byte>)
    requires c == flags.Length - i >= 1
    modifies flags
    ensures ok <==> FlagStep(d, c).Ok?
    ensures ok ==> run == Copies(FlagStep(d, c).value.0, FlagStep(d, c).value.1 + 1) && d1 == FlagStep(d, c).value.2
    ensures ok ==> i1 == i + |run| <= flags.Length && flags[..i1] == old(flags[..i]) + run
  {
    var st := FlagStep(d, flags.Length - i);
    if st.Err? {
      return false, i, d, [];
    }
    var flag, repeatCount := st.value.0, st.value.1;
    FillRun(flags, i, i + repeatCount + 1, flag);
    return true, i + repeatCount + 1, st.value.2, Copies(flag, repeatCount + 1);
  }

  method ParseFlags(data: seq<byte>, count: nat) returns (r: Result<(seq<byte>, seq<byte>)>)
    ensures r == FlagsOf(data, count)
  {
    var flags := new byte[count];
    var d := data;
    var i := 0;
    ConsNil(FlagsOf(data, count));
    assert flags[..0] == [];
    while i < count
      invariant 0 <= i <= count
      invariant FlagsOf(data, count) == Cons(flags[..i], FlagsOf(d, count - i))
      decreases count - i
    {
      ghost var pre, c := flags[..i], count - i;
      var ok, i1, d1, run := ReadFlag(flags, i, d, c);
      if !ok {
        return Err("invalid simple glyph data flags (EOF)");
      }
      FlagsAdvance(FlagsOf(data, count), pre, d, c, count, i1, run, d1);
      i, d := i1, d1;
    }
    assert flags[..] == flags[..i] && flags[..] + [] == flags[..];
    return Ok((flags[..], d));
  }

  // ---------------------------------------------------------------- coordinates

  /** Bytes one coordinate takes under its flag: 1 (short), 0 (same as before) or 2. */
  function CoordSize(flag: byte, short: bv8, same: bv8): nat
  {
    if Set8(flag, short) then 1 else if Set8(flag, same) then 0 else 2
  }

  function CoordBytes(flags: seq<byte>, short: bv8, same: bv8): nat
    decreases |flags|
  {
    if flags == [] then 0 else CoordSize(flags[0], short, same) + CoordBytes(flags[1..], short, same)
  }

  /**
   * One coordinate, relative to the previous value `v`, with int16
   * wrap-around: a short flag reads one byte, added when the same bit is set
   * and subtracted otherwise; a long flag with the same bit repeats `v`; a
   * long flag without it adds a signed 16-bit delta. It fails exactly when
   * the data runs out.
   */
  function CoordOf(data: seq<byte>, flag: byte, short: bv8, same: bv8, v: int16): (r: Result<(int16, seq<byte>)>)
    ensures r.Ok? <==> |data| >= CoordSize(flag, short, same)
    ensures r.Ok? ==> r.value.1 == data[CoordSize(flag, short, same)..]
  {
    if Set8(flag, short) then
      if |data| == 0 then Err("invalid simple glyph data points (EOF)")
      else if Set8(flag, same) then Ok((ToInt16(v as int + data[0] as int), data[1..]))
      else Ok((ToInt16(v as int - data[0] as int), data[1..]))
    else if Set8(flag, same) then Ok((v, data))
    else if |data| < 2 then Err("invalid simple glyph data points (EOF)")
    else Ok((ToInt16(v as int + BEInt16(data, 0) as int), data[2..]))
  }

  /** The coordinates of one axis, each relative to the one before, starting from `v`. */
  function CoordsOf(data: seq<byte>, flags: seq<byte>, short: bv8, same: bv8, v: int16): (r: Result<(seq<int16>, seq<byte>)>)
    ensures r.Ok? <==> |data| >= CoordBytes(flags, short, same)
    ensures r.Ok? ==> |r.value.0| == |flags| && r.value.1 == data[CoordBytes(flags, short, same)..]
    decreases |flags|
  {
    if flags == [] then Ok(([], data))
    else
      var c := CoordOf(data, flags[0], short, same, v);
      if c.Err? then Err(c.reason)
      else
        var k := CoordSize(flags[0], short, same);
        assert c.value.1 == data[k..];
        Cons([c.value.0], CoordsOf(c.value.1, flags[1..], short, same, c.value.0))
  }

  /** One point of the coordinate list, then the rest. */
  lemma CoordsCons(data: seq<byte>, flags: seq<byte>, short: bv8, same: bv8, v: int16, w: int16, tail: seq<byte>)
    requires flags != [] && CoordOf(data, flags[0], short, same, v) == Ok((w, tail))
    ensures CoordsOf(data, flags, short, same, v) == Cons([w], CoordsOf(tail, flags[1..], short, same, w))
  {
  }

  method ParseGlyphContourPoints(data: seq<byte>, flags: seq<byte>, short: bv8, same: bv8)
    returns (r: Result<(seq<int16>, seq<byte>)>)
    ensures r == CoordsOf(data, flags, short, same, 0)
  {
    var vals := new int16[|flags|];
    var v: int16 := 0;
    var d := data;
    ConsNil(CoordsOf(data, flags, short, same, 0));
    assert vals[..0] == [] && flags[0..] == flags;
    for i := 0 to |flags|
      invariant CoordsOf(data, flags, short, same, 0) == Cons(vals[..i], CoordsOf(d, flags[i..], short, same, v))
    {
      ghost var pre := vals[..i];
      assert flags[i..][0] == flags[i] && flags[i..][1..] == flags[i + 1..];
      var c := CoordOf(d, flags[i], short, same, v);
      if c.Err? {
        return Err(c.reason);
      }
      v, d := c.value.0, c.value.1;
      vals[i] := v;
      assert vals[..i + 1] == pre + [v];
      ConsAssoc(pre, [v], CoordsOf(d, flags[i + 1..], short, same, v));
    }
    assert vals[..] == vals[..|flags|] && vals[..] + [] == vals[..];
    assert flags[|flags|..] == [];
    return Ok((vals[..], d));
  }

  /** Long-form encoding of a coordinate list: each value as a 16-bit delta. */
  function EncodeDeltas(vs: seq<int16>, prev: int16): (s: seq<byte>)
    ensures |s| == 2 * |vs|
    decreases |vs|
  {
    if vs == [] then [] else Enc16(ToUint16(vs[0] as int - prev as int)) + EncodeDeltas(vs[1..], vs[0])
  }

  /** A long delta written for `w` decodes, after `prev`, back to `w`. */
  lemma DeltaStep(w: int16, prev: int16, flag: byte, short: bv8, same: bv8, post: seq<byte>)
    requires !Set8(flag, short) && !Set8(flag, same)
    ensures CoordOf(Enc16(ToUint16(w as int - prev as int)) + post, flag, short, same, prev) == Ok((w, post))
  {
    var u := ToUint16(w as int - prev as int);
    var data := Enc16(u) + post;
    assert data[0..2] == Enc16(u) && data[2..] == post;
    assert BE16(data, 0) == u by { assert BE16(data, 0) == BE16(Enc16(u), 0); }
    var d := BEInt16(data, 0) as int;
    assert (prev as int + d - w as int) % TWO16 == 0 by {
      assert (d - u as int) % TWO16 == 0;
      assert (u as int - (w as int - prev as int)) % TWO16 == 0;
      assert prev as int + d - w as int == (d - u as int) + (u as int - (w as int - prev as int));
    }
    ToInt16Unique(prev as int + d, w as int);
  }

  /** With long flags that do not repeat, decoding the deltas gives the values back. */
  lemma {:induction false} DeltasRoundTrip(vs: seq<int16>, prev: int16, flags: seq<byte>, short: bv8, same: bv8, rest: seq<byte>)
    requires |flags| == |vs|
    requires forall i :: 0 <= i < |flags| ==> !Set8(flags[i], short) && !Set8(flags[i], same)
    ensures CoordsOf(EncodeDeltas(vs, prev) + rest, flags, short, same, prev) == Ok((vs, rest))
    decreases |vs|
  {
    if vs != [] {
      var tail := EncodeDeltas(vs[1..], vs[0]) + rest;
      assert EncodeDeltas(vs, prev) + rest == Enc16(ToUint16(vs[0] as int - prev as int)) + tail;
      DeltaStep(vs[0], prev, flags[0], short, same, tail);
      CoordsCons(EncodeDeltas(vs, prev) + rest, flags, short, same, prev, vs[0], tail);
      assert forall i :: 0 <= i < |flags| - 1 ==> flags[1..][i] == flags[i + 1];
      DeltasRoundTrip(vs[1..], vs[0], flags[1..], short, same, rest);
      assert [vs[0]] + vs[1..] == vs;
    }
  }

  // ---------------------------------------------------------------- simple glyphs

  datatype Point = Point(flag: byte, x: int16, y: int16)

  datatype SimpleGlyph = SimpleGlyph(endPtsOfContours: seq<uint16>, instructions: seq<byte>, points: seq<Point>)

  /** What `sort.SliceIsSorted` with `<` accepts: no entry smaller than its predecessor. */
  predicate AdjSorted(s: seq<uint16>)
  {
    forall i :: 0 < i < |s| ==> s[i - 1] <= s[i]
  }

  /** In such a list every entry is at most the last one. */
  lemma {:induction false} AdjSortedBelowLast(s: seq<uint16>, i: nat)
    requires AdjSorted(s) && i < |s|
    ensures s[i] <= s[|s| - 1]
    decreases |s| - i
  {
    if i < |s| - 1 {
      AdjSortedBelowLast(s, i + 1);
    }
  }

  function Zip(fl: seq<byte>, xs: seq<int16>, ys: seq<int16>): (ps: seq<Point>)
    requires |xs| == |fl| && |ys| == |fl|
    ensures |ps| == |fl| && forall i :: 0 <= i < |fl| ==> ps[i] == Point(fl[i], xs[i], ys[i])
  {
    seq(|fl|, i requires 0 <= i < |fl| => Point(fl[i], xs[i], ys[i]))
  }

  /** `numPoints` points: their flags, then all x coordinates, then all y coordinates. */
  function PointsOf(data: seq<byte>, numPoints: nat): (r: Result<seq<Point>>)
    ensures r.Ok? ==> |r.value| == numPoints
  {
    var fl := FlagsOf(data, numPoints);
    if fl.Err? then Err(fl.reason)
    else
      var xs := CoordsOf(fl.value.1, fl.value.0, XShortVector, XIsSameOrPositive, 0);
      if xs.Err? then Err(xs.reason)
      else
        var ys := CoordsOf(xs.value.1, fl.value.0, YShortVector, YIsSameOrPositive, 0);
        if ys.Err? then Err(ys.reason)
        else Ok(Zip(fl.value.0, xs.value.0, ys.value.0))
  }

  /** The points part of the simple-glyph parser. */
  method ParsePoints(data: seq<byte>, numPoints: nat) returns (r: Result<seq<Point>>)
    ensures r == PointsOf(data, numPoints)
  {
    var fl := ParseFlags(data, numPoints);
    if fl.Err? {
      return Err(fl.reason);
    }
    var xs := ParseGlyphContourPoints(fl.value.1, fl.value.0, XShortVector, XIsSameOrPositive);
    if xs.Err? {
      return Err(xs.reason);
    }
    var ys := ParseGlyphContourPoints(xs.value.1, fl.value.0, YShortVector, YIsSameOrPositive);
    if ys.Err? {
      return Err(ys.reason);
    }
    return Ok(Zip(fl.value.0, xs.value.0, ys.value.0));
  }

  /** After sorted end points and the instructions: the points the last end point calls for. */
  function SimpleTailOf(endPts: seq<uint16>, ins: seq<byte>, rest: seq<byte>): (r: Result<SimpleGlyph>)
    requires AdjSorted(endPts)
    ensures r.Ok? ==> r.value.endPtsOfContours == endPts && r.value.instructions == ins
    ensures r.Ok? ==> |r.value.points| == (if endPts == [] then 0 else endPts[|endPts| - 1] as int + 1)
    ensures r.Ok? ==> forall i :: 0 <= i < |endPts| ==> endPts[i] as int < |r.value.points|
  {
    if endPts == [] then Ok(SimpleGlyph(endPts, ins, []))
    else
      var pts := PointsOf(rest, endPts[|endPts| - 1] as int + 1);
      if pts.Err? then Err(pts.reason)
      else
        assert forall i :: 0 <= i < |endPts| ==> endPts[i] <= endPts[|endPts| - 1] by {
          forall i | 0 <= i < |endPts| { AdjSortedBelowLast(endPts, i); }
        }
        Ok(SimpleGlyph(endPts, ins, pts.value))
  }

  /**
   * A simple glyph after its header: end points (which must be sorted), the
   * instructions, and `last end point + 1` points; so every end point
   * indexes a point.
   */
  function SimpleGlyphOf(data: seq<byte>, numberOfContours: nat): (r: Result<SimpleGlyph>)
    ensures 2 * numberOfContours <= |data| && !AdjSorted(Words(data, 0, numberOfContours)) ==> r.Err?
    ensures r.Ok? ==> 2 * numberOfContours <= |data| && r.value.endPtsOfContours == Words(data, 0, numberOfContours)
    ensures r.Ok? ==> AdjSorted(r.value.endPtsOfContours)
    ensures r.Ok? ==> |r.value.points| == (if numberOfContours == 0 then 0
                                           else r.value.endPtsOfContours[numberOfContours - 1] as int + 1)
    ensures r.Ok? ==> forall i :: 0 <= i < numberOfContours ==> r.value.endPtsOfContours[i] as int < |r.value.points|
  {
    var ends := Uint16sOf(data, numberOfContours);
    if ends.Err? then Err(ends.reason)
    else if !AdjSorted(ends.value) then Err("invalid simple glyph data end points")
    else
      var ins := GlyphInstructionOf(data[2 * numberOfContours..]);
      if ins.Err? then Err(ins.reason)
      else SimpleTailOf(ends.value, ins.value.0, ins.value.1)
  }

  method ParseSimpleTail(endPts: seq<uint16>, ins: seq<byte>, rest: seq<byte>) returns (r: Result<SimpleGlyph>)
    requires AdjSorted(endPts)
    ensures r == SimpleTailOf(endPts, ins, rest)
  {
    if endPts == [] {
      return Ok(SimpleGlyph(endPts, ins, []));
    }
    var pts := ParsePoints(rest, endPts[|endPts| - 1] as int + 1);
    if pts.Err? {
      return Err(pts.reason);
    }
    return Ok(SimpleGlyph(endPts, ins, pts.value));
  }

  method ParseSimpleGlyphData(data: seq<byte>, numberOfContours: nat) returns (r: Result<SimpleGlyph>)
    ensures r == SimpleGlyphOf(data, numberOfContours)
  {
    var ends := Uint16sOf(data, numberOfContours);
    if ends.Err? {
      return Err(ends.reason);
    }
    if !AdjSorted(ends.value) {
      return Err("invalid simple glyph data end points");
    }
    var ins := GlyphInstructionOf(data[2 * numberOfContours..]);
    if ins.Err? {
      return Err(ins.reason);
    }
    r := ParseSimpleTail(ends.value, ins.value.0, ins.value.1);
  }

  // ---------------------------------------------------------------- composite glyphs

  const Arg1And2AreWords: bv16 := 0x0001
  const WeHaveAScale: bv16 := 0x0008
  const MoreComponents: bv16 := 0x0020
  const WeHaveAnXAndYScale: bv16 := 0x0040
  const WeHaveATwoByTwo: bv16 := 0x0080
  const WeHaveInstructions: bv16 := 0x0100

  /** The raw F2Dot14 words of a component's transform. */
  datatype Scale = Identity | Uniform(s: uint16) | XYScale(sx: uint16, sy: uint16)
                 | TwoByTwo(xx: uint16, xy: uint16, yx: uint16, yy: uint16)

  datatype Component = Component(flags: bv16, glyphIndex: GlyphIndex, arg1: uint16, arg2: uint16, scale: Scale)

  datatype CompositeGlyph = CompositeGlyph(glyphs: seq<Component>, instructions: seq<byte>)

  /** The component's metrics are those of the glyph it shows: flag bit 9. */
  function HasUseMyMetrics(flags: bv16): (r: bool)
    ensures r <==> (flags >> 9) & 1 == 1
  {
    flags & 0x0200 != 0
  }

  /** The two arguments are point numbers to match, not offsets: flag bit 1 is clear. */
  function IsAnchored(flags: bv16): (r: bool)
    ensures r <==> (flags >> 1) & 1 == 0
  {
    flags & 0x0002 == 0
  }

  /** The offset is scaled by the component's transform: of flag bits 11 and 12, only bit 11 is set. */
  function IsScaledOffsets(flags: bv16): (r: bool)
    ensures r <==> (flags >> 11) & 3 == 1
  {
    flags & (0x0800 | 0x1000) == 0x0800
  }

  function ScaleSize(flags: bv16): nat
  {
    if flags & WeHaveAScale != 0 then 2
    else if flags & WeHaveAnXAndYScale != 0 then 4
    else if flags & WeHaveATwoByTwo != 0 then 8
    else 0
  }

  /** Bytes a component record takes: flags and glyph, two arguments, the transform. */
  function ComponentSize(flags: bv16): nat
  {
    4 + (if flags & Arg1And2AreWords != 0 then 4 else 2) + ScaleSize(flags)
  }

  function ComponentOf(data: seq<byte>): (r: Result<(Component, seq<byte>)>)
    ensures r.Ok? <==> |data| >= 4 && |data| >= ComponentSize(BE16(data, 0) as bv16)
    ensures r.Ok? ==> r.value.0.flags == BE16(data, 0) as bv16 && r.value.0.glyphIndex == BE16(data, 2)
    ensures r.Ok? ==> r.value.1 == data[ComponentSize(r.value.0.flags)..]
  {
    if |data| < 4 then Err("invalid composite glyph data (EOF)")
    else
      var flags := BE16(data, 0) as bv16;
      var gid := BE16(data, 2);
      var words := flags & Arg1And2AreWords != 0;
      if |data| < (if words then 8 else 6) then Err("invalid composite glyph data (EOF)")
      else
        var arg1 := if words then BE16(data, 4) else data[4] as uint16;
        var arg2 := if words then BE16(data, 6) else data[5] as uint16;
        var d := data[(if words then 8 else 6)..];
        if flags & WeHaveAScale != 0 then
          if |d| < 2 then Err("invalid composite glyph data (EOF)")
          else Ok((Component(flags, gid, arg1, arg2, Uniform(BE16(d, 0))), d[2..]))
        else if flags & WeHaveAnXAndYScale != 0 then
          if |d| < 4 then Err("invalid composite glyph data (EOF)")
          else Ok((Component(flags, gid, arg1, arg2, XYScale(BE16(d, 0), BE16(d, 2))), d[4..]))
        else if flags & WeHaveATwoByTwo != 0 then
          if |d| < 8 then Err("invalid composite glyph data (EOF)")
          else Ok((Component(flags, gid, arg1, arg2, TwoByTwo(BE16(d, 0), BE16(d, 2), BE16(d, 4), BE16(d, 6))), d[8..]))
        else Ok((Component(flags, gid, arg1, arg2, Identity), d))
  }

  /**
   * Component records, read while the more-components bit is set: at least
   * one, every one but the last with that bit, the last without it.
   */
  function ComponentsOf(data: seq<byte>): (r: Result<(seq<Component>, seq<byte>)>)
    ensures r.Ok? ==> |r.value.0| >= 1 && r.value.0[|r.value.0| - 1].flags & MoreComponents == 0
    ensures r.Ok? ==> forall i :: 0 <= i < |r.value.0| - 1 ==> r.value.0[i].flags & MoreComponents != 0
    decreases |data|
  {
    var c := ComponentOf(data);
    if c.Err? then Err(c.reason)
    else if c.value.0.flags & MoreComponents != 0 then
      Cons([c.value.0], ComponentsOf(c.value.1))
    else
      Ok(([c.value.0], c.value.1))
  }

  /** Components, then an instruction block when the last component's flags ask for one. */
  function CompositeOf(data: seq<byte>): (r: Result<CompositeGlyph>)
    ensures r.Ok? ==> |r.value.glyphs| >= 1
  {
    var cs := ComponentsOf(data);
    if cs.Err? then Err(cs.reason)
    else if cs.value.0[|cs.value.0| - 1].flags & WeHaveInstructions != 0 then
      var ins := GlyphInstructionOf(cs.value.1);
      if ins.Err? then Err(ins.reason) else Ok(CompositeGlyph(cs.value.0, ins.value.0))
    else Ok(CompositeGlyph(cs.value.0, []))
  }

  /** One turn of the component loop. */
  lemma ComponentsStep(d: seq<byte>)
    requires ComponentOf(d).Ok?
    ensures var c := ComponentOf(d).value;
      ComponentsOf(d) == if c.0.flags & MoreComponents != 0 then Cons([c.0], ComponentsOf(c.1)) else Ok(([c.0], c.1))
  {
  }

  /** What the composite parser returns once its components are read. */
  lemma CompositeOfParts(data: seq<byte>, glyphs: seq<Component>, d: seq<byte>)
    requires ComponentsOf(data) == Ok((glyphs, d))
    ensures glyphs != []
    ensures glyphs[|glyphs| - 1].flags & WeHaveInstructions != 0 ==>
      CompositeOf(data) == (var ins := GlyphInstructionOf(d);
                            if ins.Err? then Err(ins.reason) else Ok(CompositeGlyph(glyphs, ins.value.0)))
    ensures glyphs[|glyphs| - 1].flags & WeHaveInstructions == 0 ==> CompositeOf(data) == Ok(CompositeGlyph(glyphs, []))
  {
  }

  lemma CompositeOfError(data: seq<byte>, glyphs: seq<Component>, d: seq<byte>)
    requires ComponentOf(d).Err? && ComponentsOf(data) == Cons(glyphs, ComponentsOf(d))
    ensures CompositeOf(data) == Err(ComponentOf(d).reason)
  {
  }

  /** One turn of the component loop: read a record and decide whether another follows. */
  method ReadComponent(ghost data: seq<byte>, glyphs: seq<Component>, d: seq<byte>)
    returns (part: Result<(Component, seq<byte>)>, glyphs1: seq<Component>, d1: seq<byte>, flags: bv16, more: bool)
    requires ComponentsOf(data) == Cons(glyphs, ComponentsOf(d))
    ensures part.Err? ==> CompositeOf(data) == Err(part.reason)
    ensures part.Ok? ==> |d1| < |d| && glyphs1 != [] && flags == glyphs1[|glyphs1| - 1].flags
    ensures part.Ok? && more ==> ComponentsOf(data) == Cons(glyphs1, ComponentsOf(d1))
    ensures part.Ok? && !more ==> ComponentsOf(data) == Ok((glyphs1, d1))
  {
    part := ComponentOf(d);
    if part.Err? {
      CompositeOfError(data, glyphs, d);
      return part, glyphs, d, 0, false;
    }
    flags := part.value.0.flags;
    glyphs1 := glyphs + [part.value.0];
    d1 := part.value.1;
    more := flags & MoreComponents != 0;
    ComponentsStep(d);
    ConsAssoc(glyphs, [part.value.0], ComponentsOf(d1));
  }

  method ParseCompositeGlyphData(data: seq<byte>) returns (r: Result<CompositeGlyph>)
    ensures r == CompositeOf(data)
  {
    var glyphs: seq<Component> := [];
    var d := data;
    var flags: bv16 := 0;
    var more := true;
    ConsNil(ComponentsOf(data));
    while more
      invariant more ==> ComponentsOf(data) == Cons(glyphs, ComponentsOf(d))
      invariant !more ==> glyphs != [] && ComponentsOf(data) == Ok((glyphs, d))
                          && flags == glyphs[|glyphs| - 1].flags
      decreases |d|
    {
      var part;
      part, glyphs, d, flags, more := ReadComponent(data, glyphs, d);
      if part.Err? {
        return Err(part.reason);
      }
    }
    CompositeOfParts(data, glyphs, d);
    if flags & WeHaveInstructions != 0 {
      var ins := GlyphInstructionOf(d);
      if ins.Err? {
        return Err(ins.reason);
      }
      return Ok(CompositeGlyph(glyphs, ins.value.0));
    }
    return Ok(CompositeGlyph(glyphs, []));
  }

  // ---------------------------------------------------------------- glyph data

  datatype Outline = NoOutline | Simple(simple: SimpleGlyph) | Composite(composite: CompositeGlyph)

  datatype GlyphData = GlyphData(data: Outline, xMin: int16, yMin: int16, xMax: int16, yMax: int16)

  /** An entry without an outline (the zero value of the Go record). */
  const EmptyGlyph := GlyphData(NoOutline, 0, 0, 0, 0)

  /** Points of a glyph, not counting phantom points: one per component for a composite. */
  function PointNumbersCount(g: GlyphData): nat
  {
    match g.data
    case Simple(s) => |s.points|
    case Composite(c) => |c.glyphs|
    case NoOutline => 0
  }

  /** A parsed glyph has `last end point + 1` points (simple) or at least one (composite). */
  predicate PointCountAgrees(g: GlyphData)
  {
    match g.data
    case Simple(s) => PointNumbersCount(g) == (if s.endPtsOfContours == [] then 0
                                              else s.endPtsOfContours[|s.endPtsOfContours| - 1] as int + 1)
    case Composite(c) => PointNumbersCount(g) >= 1
    case NoOutline => false
  }

  /** The outline after a glyph header with `numberOfContours` contours. */
  function OutlineOf(body: seq<byte>, numberOfContours: int): (r: Result<Outline>)
    ensures r.Ok? ==> !r.value.NoOutline? && (r.value.Simple? <==> numberOfContours >= 0)
    ensures r.Ok? ==> PointCountAgrees(GlyphData(r.value, 0, 0, 0, 0))
  {
    if numberOfContours >= 0 then
      var s := SimpleGlyphOf(body, numberOfContours);
      if s.Err? then Err(s.reason) else Ok(Simple(s.value))
    else
      var c := CompositeOf(body);
      if c.Err? then Err(c.reason) else Ok(Composite(c.value))
  }

  /**
   * One glyph at `offset`: a 10-byte header (contour count and bounds, all
   * signed), then a simple glyph when the contour count is not negative and
   * a composite glyph otherwise.
   */
  function GlyphDataOf(data: seq<byte>, offset: uint32): (r: Result<GlyphData>)
    ensures |data| < offset as int + 10 ==> r.Err?
    ensures r.Ok? ==> offset as int + 10 <= |data| && !r.value.data.NoOutline?
    ensures r.Ok? ==> PointCountAgrees(r.value)
    ensures r.Ok? ==> (r.value.data.Simple? <==> BEInt16(data, offset as int) >= 0)
    ensures r.Ok? ==> (r.value.xMin == BEInt16(data, offset as int + 2) && r.value.yMin == BEInt16(data, offset as int + 4)
                    && r.value.xMax == BEInt16(data, offset as int + 6) && r.value.yMax == BEInt16(data, offset as int + 8))
  {
    if |data| < offset as int + 10 then Err("invalid 'glyf' table (EOF)")
    else
      var g := data[offset..];
      var o := OutlineOf(g[10..], BEInt16(g, 0) as int);
      if o.Err? then Err(o.reason)
      else Ok(GlyphData(o.value, BEInt16(g, 2), BEInt16(g, 4), BEInt16(g, 6), BEInt16(g, 8)))
  }

  method ParseOutline(body: seq<byte>, numberOfContours: int) returns (r: Result<Outline>)
    ensures r == OutlineOf(body, numberOfContours)
  {
    if numberOfContours >= 0 {
      var s := ParseSimpleGlyphData(body, numberOfContours);
      if s.Err? {
        return Err(s.reason);
      }
      return Ok(Simple(s.value));
    }
    var c := ParseCompositeGlyphData(body);
    if c.Err? {
      return Err(c.reason);
    }
    return Ok(Composite(c.value));
  }

  method ParseGlyphData(data: seq<byte>, offset: uint32) returns (r: Result<GlyphData>)
    ensures r == GlyphDataOf(data, offset)
  {
    if |data| < offset as int + 10 {
      return Err("invalid 'glyf' table (EOF)");
    }
    var g := data[offset..];
    var o := ParseOutline(g[10..], BEInt16(g, 0) as int);
    if o.Err? {
      return Err(o.reason);
    }
    return Ok(GlyphData(o.value, BEInt16(g, 2), BEInt16(g, 4), BEInt16(g, 6), BEInt16(g, 8)));
  }

  // ---------------------------------------------------------------- glyf

  /** Glyph `i`: empty when its 'loca' range is empty, else parsed at its offset. */
  function GlyphAt(data: seq<byte>, loca: seq<uint32>, i: nat): (r: Result<GlyphData>)
    requires i + 1 < |loca|
    ensures loca[i] == loca[i + 1] ==> r == Ok(EmptyGlyph)
  {
    if loca[i] == loca[i + 1] then Ok(EmptyGlyph) else GlyphDataOf(data, loca[i])
  }

  /** All values when every entry succeeded; otherwise the first entry's error. */
  function Collect<T>(rs: seq<Result<T>>): (r: Result<seq<T>>)
    ensures r.Ok? <==> forall i :: 0 <= i < |rs| ==> rs[i].Ok?
    ensures r.Ok? ==> |r.value| == |rs| && forall i :: 0 <= i < |rs| ==> r.value[i] == rs[i].value
  {
    if rs == [] then Ok([])
    else
      var p := Collect(rs[..|rs| - 1]);
      if p.Err? then p
      else if rs[|rs| - 1].Err? then Err(rs[|rs| - 1].reason)
      else Ok(p.value + [rs[|rs| - 1].value])
  }

  /** Once entry `i` fails after good ones, every longer prefix fails with its error. */
  lemma {:induction false} CollectFirstError<T>(rs: seq<Result<T>>, i: nat)
    requires i < |rs| && rs[i].Err?
    requires forall k :: 0 <= k < i ==> rs[k].Ok?
    ensures Collect(rs) == Err(rs[i].reason)
    decreases |rs|
  {
    var front := rs[..|rs| - 1];
    if |rs| - 1 > i {
      CollectFirstError(front, i);
    } else {
      assert Collect(front).Ok?;
    }
  }

  /** The per-glyph results of a 'glyf' table. */
  function GlyphResults(data: seq<byte>, loca: seq<uint32>): (rs: seq<Result<GlyphData>>)
    requires |loca| >= 1
    ensures |rs| == |loca| - 1 && forall i :: 0 <= i < |loca| - 1 ==> rs[i] == GlyphAt(data, loca, i)
  {
    seq(|loca| - 1, i requires 0 <= i < |loca| - 1 => GlyphAt(data, loca, i))
  }

  /** The 'glyf' table for `|loca| - 1` glyphs; the first glyph that fails decides the error. */
  function GlyfOf(data: seq<byte>, loca: seq<uint32>): (r: Result<seq<GlyphData>>)
    requires |loca| >= 1
    ensures r.Ok? ==> |r.value| == |loca| - 1
  {
    Collect(GlyphResults(data, loca))
  }

  /** Glyph `i` is empty whenever `loca[i] == loca[i + 1]`. */
  lemma GlyfEmptyEntry(data: seq<byte>, loca: seq<uint32>, i: nat)
    requires |loca| >= 1 && GlyfOf(data, loca).Ok?
    requires i + 1 < |loca| && loca[i] == loca[i + 1]
    ensures GlyfOf(data, loca).value[i] == EmptyGlyph
  {
    assert GlyphResults(data, loca)[i] == GlyphAt(data, loca, i);
  }

  method ParseTableGlyf(data: seq<byte>, loca: seq<uint32>) returns (r: Result<seq<GlyphData>>)
    requires |loca| >= 1
    ensures r == GlyfOf(data, loca)
  {
    ghost var rs := GlyphResults(data, loca);
    var out := new GlyphData[|loca| - 1](_ => EmptyGlyph);
    for i := 0 to out.Length
      invariant forall k :: 0 <= k < i ==> rs[k].Ok? && out[k] == rs[k].value
      invariant forall k :: i <= k < out.Length ==> out[k] == EmptyGlyph
    {
      if loca[i] == loca[i + 1] {
        continue;
      }
      var g := ParseGlyphData(data, loca[i]);
      if g.Err? {
        CollectFirstError(rs, i);
        return Err(g.reason);
      }
      out[i] := g.value;
    }
    assert out[..] == Collect(rs).value;
    return Ok(out[..]);
  }
}

// The OpenType shaper's plan decisions and its in-place passes over a
// glyph buffer: vertical presentation forms, automatic fractions, glyph
// classes synthesised from Unicode, zeroing mark advances, and propagating
// the unsafe-to-break flag over clusters.

module OTShaper {
  import opened Common
  import opened OTTag

  // ---------------------------------------------------------------- buffer

  /** The Unicode general categories the passes below tell apart. */
  datatype Category = DecimalNumber | NonSpacingMark | OtherCategory

  /** HarfBuzz's glyph property bits: the glyph class set by GDEF or synthesised. */
  const BaseGlyph: bv16 := 0x02
  const Ligature: bv16 := 0x04
  const Mark: bv16 := 0x08

  /** The glyph flag marking a glyph as unsafe to break before. */
  const UnsafeToBreak: uint32 := 0x1

  /** Scratch flags the buffer raises while it is filled. */
  const HasNonAscii: bv32 := 0x1
  const HasUnsafeToBreakFlag: bv32 := 0x10

  /** U+2044 FRACTION SLASH. */
  const FractionSlash: int := 0x2044

  /**
   * One glyph of the buffer: the code point it came from, its cluster, its
   * feature mask, its glyph properties, and the Unicode facts about its code
   * point (general category, default-ignorable).
   */
  datatype GlyphInfo = GlyphInfo(codepoint: int, cluster: int, mask: uint32, glyphProps: bv16,
                                 category: Category, defaultIgnorable: bool)

  datatype GlyphPosition = GlyphPosition(xAdvance: int32, yAdvance: int32, xOffset: int32, yOffset: int32)

  predicate IsMark(g: GlyphInfo) { g.glyphProps & Mark != 0 }

  datatype Direction = Invalid | LeftToRight | RightToLeft | TopToBottom | BottomToTop
  {
    predicate IsHorizontal() { this == LeftToRight || this == RightToLeft }
    predicate IsForward() { this == LeftToRight || this == TopToBottom }
    predicate IsBackward() { this == RightToLeft || this == BottomToTop }
  }

  /** The glyph buffer: parallel `info` and `pos` arrays, scratch flags and direction. */
  class Buffer {
    var info: array<GlyphInfo>
    var pos: array<GlyphPosition>
    var scratchFlags: bv32
    var direction: Direction

    /** Every glyph has a position entry. */
    ghost predicate Valid()
      reads this
    {
      pos.Length == info.Length
    }

    constructor (info: array<GlyphInfo>, pos: array<GlyphPosition>, scratchFlags: bv32, direction: Direction)
      requires pos.Length == info.Length
      ensures Valid()
      ensures this.info == info && this.pos == pos && this.scratchFlags == scratchFlags && this.direction == direction
    {
      this.info := info;
      this.pos := pos;
      this.scratchFlags := scratchFlags;
      this.direction := direction;
    }
  }

  // ---------------------------------------------------------------- vertical forms

  /** The code points `vertCharFor` replaces by a vertical presentation form. */
  const VertListed: set<int> := {
    0x2013, 0x2014, 0x2025, 0x2026,
    0x3001, 0x3002, 0x3008, 0x3009, 0x300A, 0x300B, 0x300C, 0x300D, 0x300E, 0x300F,
    0x3010, 0x3011, 0x3014, 0x3015, 0x3016, 0x3017,
    0xFE4F,
    0xFF01, 0xFF08, 0xFF09, 0xFF0C, 0xFF1A, 0xFF1B, 0xFF1F, 0xFF3B, 0xFF3D, 0xFF3F, 0xFF5B, 0xFF5D
  }

  /**
   * `vertCharFor`: the vertical presentation form of a punctuation code
   * point, dispatched on the code point's block (`u >> 8`); every other code
   * point is its own form.
   */
  function VertCharFor(u: int): (r: int)
    ensures u !in VertListed ==> r == u
    ensures u in VertListed ==> 0xFE10 <= r <= 0xFE48
  {
    match u / 0x100
    case 0x20 =>
      (match u
       case 0x2013 => 0xFE32 // EN DASH
       case 0x2014 => 0xFE31 // EM DASH
       case 0x2025 => 0xFE30 // TWO DOT LEADER
       case 0x2026 => 0xFE19 // HORIZONTAL ELLIPSIS
       case _ => u)
    case 0x30 =>
      (match u
       case 0x3001 => 0xFE11 // IDEOGRAPHIC COMMA
       case 0x3002 => 0xFE12 // IDEOGRAPHIC FULL STOP
       case 0x3008 => 0xFE3F // LEFT ANGLE BRACKET
       case 0x3009 => 0xFE40 // RIGHT ANGLE BRACKET
       case 0x300A => 0xFE3D // LEFT DOUBLE ANGLE BRACKET
       case 0x300B => 0xFE3E // RIGHT DOUBLE ANGLE BRACKET
       case 0x300C => 0xFE41 // LEFT CORNER BRACKET
       case 0x300D => 0xFE42 // RIGHT CORNER BRACKET
       case 0x300E => 0xFE43 // LEFT WHITE CORNER BRACKET
       case 0x300F => 0xFE44 // RIGHT WHITE CORNER BRACKET
       case 0x3010 => 0xFE3B // LEFT BLACK LENTICULAR BRACKET
       case 0x3011 => 0xFE3C // RIGHT BLACK LENTICULAR BRACKET
       case 0x3014 => 0xFE39 // LEFT TORTOISE SHELL BRACKET
       case 0x3015 => 0xFE3A // RIGHT TORTOISE SHELL BRACKET
       case 0x3016 => 0xFE17 // LEFT WHITE LENTICULAR BRACKET
       case 0x3017 => 0xFE18 // RIGHT WHITE LENTICULAR BRACKET
       case _ => u)
    case 0xFE =>
      (match u
       case 0xFE4F => 0xFE34 // WAVY LOW LINE
       case _ => u)
    case 0xFF =>
      (match u
       case 0xFF01 => 0xFE15 // FULLWIDTH EXCLAMATION MARK
       case 0xFF08 => 0xFE35 // FULLWIDTH LEFT PARENTHESIS
       case 0xFF09 => 0xFE36 // FULLWIDTH RIGHT PARENTHESIS
       case 0xFF0C => 0xFE10 // FULLWIDTH COMMA
       case 0xFF1A => 0xFE13 // FULLWIDTH COLON
       case 0xFF1B => 0xFE14 // FULLWIDTH SEMICOLON
       case 0xFF1F => 0xFE16 // FULLWIDTH QUESTION MARK
       case 0xFF3B => 0xFE47 // FULLWIDTH LEFT SQUARE BRACKET
       case 0xFF3D => 0xFE48 // FULLWIDTH RIGHT SQUARE BRACKET
       case 0xFF3F => 0xFE33 // FULLWIDTH LOW LINE
       case 0xFF5B => 0xFE37 // FULLWIDTH LEFT CURLY BRACKET
       case 0xFF5D => 0xFE38 // FULLWIDTH RIGHT CURLY BRACKET
       case _ => u)
    case _ => u
  }

  /** A presentation form is not itself listed, so mapping twice changes nothing more. */
  lemma VertCharForIdempotent(u: int)
    ensures VertCharFor(VertCharFor(u)) == VertCharFor(u)
  {
  }

  /** Every listed code point is replaced: none is its own vertical form. */
  lemma VertCharForMoves(u: int)
    ensures VertCharFor(u) != u <==> u in VertListed
  {
  }

  // ---------------------------------------------------------------- glyph classes

  /**
   * The class Unicode suggests for a glyph: Mark for a non-spacing mark that
   * is not default-ignorable, BaseGlyph otherwise.
   */
  function SynthesizedClass(g: GlyphInfo): (c: bv16)
    ensures c == Mark <==> g.category == NonSpacingMark && !g.defaultIgnorable
    ensures c == Mark || c == BaseGlyph
  {
    if g.category != NonSpacingMark || g.defaultIgnorable then BaseGlyph else Mark
  }

  /** `synthesizeGlyphClasses`: every glyph's properties become its synthesised class. */
  method SynthesizeGlyphClasses(buffer: Buffer)
    modifies buffer.info
    ensures forall i :: 0 <= i < buffer.info.Length ==>
      buffer.info[i] == old(buffer.info[i]).(glyphProps := SynthesizedClass(old(buffer.info[i])))
  {
    var info := buffer.info;
    for i := 0 to info.Length
      invariant forall j :: 0 <= j < i ==> info[j] == old(info[j]).(glyphProps := SynthesizedClass(old(info[j])))
      invariant forall j :: i <= j < info.Length ==> info[j] == old(info[j])
    {
      var glyphClass := Mark;
      if info[i].category != NonSpacingMark || info[i].defaultIgnorable {
        glyphClass := BaseGlyph;
      }
      info[i] := info[i].(glyphProps := glyphClass);
    }
  }

  /** After synthesis a glyph is a mark exactly when Unicode calls it a visible non-spacing mark. */
  lemma SynthesizedMarks(g: GlyphInfo)
    ensures IsMark(g.(glyphProps := SynthesizedClass(g))) <==> g.category == NonSpacingMark && !g.defaultIgnorable
  {
  }

  // ---------------------------------------------------------------- zeroing marks

  /**
   * A mark's position after zeroing: no advance, and with `adjustOffsets`
   * the offsets moved back by the old advances (`int32` arithmetic).
   */
  function ZeroedMark(p: GlyphPosition, adjustOffsets: bool): (q: GlyphPosition)
    ensures q.xAdvance == 0 && q.yAdvance == 0
    ensures adjustOffsets ==> (q.xOffset as int - (p.xOffset as int - p.xAdvance as int)) % TWO32 == 0
    ensures adjustOffsets ==> (q.yOffset as int - (p.yOffset as int - p.yAdvance as int)) % TWO32 == 0
    ensures !adjustOffsets ==> q.xOffset == p.xOffset && q.yOffset == p.yOffset
  {
    var xOffset := if adjustOffsets then ToInt32(p.xOffset as int - p.xAdvance as int) else p.xOffset;
    var yOffset := if adjustOffsets then ToInt32(p.yOffset as int - p.yAdvance as int) else p.yOffset;
    GlyphPosition(0, 0, xOffset, yOffset)
  }

  /** `zeroMarkWidthsByGdef`: marks lose their advances; other glyphs keep their positions. */
  method ZeroMarkWidthsByGdef(buffer: Buffer, adjustOffsets: bool)
    requires buffer.Valid()
    modifies buffer.pos
    ensures forall i :: 0 <= i < buffer.pos.Length ==>
      buffer.pos[i] == if IsMark(buffer.info[i]) then ZeroedMark(old(buffer.pos[i]), adjustOffsets) else old(buffer.pos[i])
  {
    var info, pos := buffer.info, buffer.pos;
    for i := 0 to info.Length
      invariant forall j :: 0 <= j < i ==> pos[j] == if IsMark(info[j]) then ZeroedMark(old(pos[j]), adjustOffsets) else old(pos[j])
      invariant forall j :: i <= j < pos.Length ==> pos[j] == old(pos[j])
    {
      if info[i].glyphProps & Mark != 0 {
        pos[i] := ZeroedMark(pos[i], adjustOffsets);
      }
    }
  }

  // ---------------------------------------------------------------- propagating flags

  /** The glyph carries the unsafe-to-break flag. */
  predicate Unsafe(g: GlyphInfo) { BitAnd(g.mask as nat, UnsafeToBreak as nat) != 0 }

  /** Glyphs `j` and `k` lie in one run of glyphs of the same cluster. */
  ghost predicate SameRun(info: seq<GlyphInfo>, j: int, k: int)
    requires 0 <= j < |info| && 0 <= k < |info|
  {
    forall m :: (j <= m <= k || k <= m <= j) ==> info[m].cluster == info[k].cluster
  }

  /** Some glyph of the cluster run of glyph `k` is unsafe to break. */
  ghost predicate RunUnsafe(info: seq<GlyphInfo>, k: int)
    requires 0 <= k < |info|
  {
    exists j :: 0 <= j < |info| && SameRun(info, j, k) && Unsafe(info[j])
  }

  /** The glyphs after propagation: every glyph of a run with an unsafe glyph is unsafe. */
  ghost function Propagated(info: seq<GlyphInfo>): (r: seq<GlyphInfo>)
    ensures |r| == |info|
  {
    seq(|info|, k requires 0 <= k < |info| =>
      if RunUnsafe(info, k) then info[k].(mask := Or32(info[k].mask, UnsafeToBreak)) else info[k])
  }

  /** The run from `start` to `end` is a maximal run of glyphs of one cluster. */
  predicate IsRun(info: seq<GlyphInfo>, start: int, end: int)
  {
    && 0 <= start < end <= |info|
    && (forall k :: start <= k < end ==> info[k].cluster == info[start].cluster)
    && (start > 0 ==> info[start - 1].cluster != info[start].cluster)
    && (end < |info| ==> info[end].cluster != info[start].cluster)
  }

  /**
   * The buffer's cluster iterator: the end of the run of glyphs sharing
   * the cluster of the glyph at `start`.
   */
  method NextCluster(info: array<GlyphInfo>, start: int) returns (end: int)
    requires 0 <= start < info.Length
    ensures start < end <= info.Length
    ensures forall k :: start <= k < end ==> info[k].cluster == info[start].cluster
    ensures end < info.Length ==> info[end].cluster != info[start].cluster
  {
    end := start + 1;
    while end < info.Length && info[end].cluster == info[start].cluster
      invariant start < end <= info.Length
      invariant forall k :: start <= k < end ==> info[k].cluster == info[start].cluster
    {
      end := end + 1;
    }
  }

  /** Whether a glyph from `start` to `end` is unsafe to break; the scan stops at the first. */
  method AnyUnsafe(info: array<GlyphInfo>, start: int, end: int) returns (found: bool)
    requires 0 <= start <= end <= info.Length
    ensures found <==> exists j :: start <= j < end && Unsafe(info[j])
  {
    found := false;
    var i := start;
    while i < end
      invariant start <= i <= end
      invariant forall j :: start <= j < i ==> !Unsafe(info[j])
    {
      if BitAnd(info[i].mask as nat, UnsafeToBreak as nat) != 0 {
        found := true;
        return;
      }
      i := i + 1;
    }
  }

  /** Raises the unsafe-to-break flag on the glyphs from `start` to `end`. */
  method MarkUnsafe(info: array<GlyphInfo>, start: int, end: int)
    requires 0 <= start <= end <= info.Length
    modifies info
    ensures forall k :: start <= k < end ==> info[k] == old(info[k]).(mask := Or32(old(info[k]).mask, UnsafeToBreak))
    ensures forall k :: 0 <= k < info.Length && !(start <= k < end) ==> info[k] == old(info[k])
  {
    for i := start to end
      invariant forall k :: start <= k < i ==> info[k] == old(info[k]).(mask := Or32(old(info[k]).mask, UnsafeToBreak))
      invariant forall k :: 0 <= k < info.Length && !(start <= k < i) ==> info[k] == old(info[k])
    {
      info[i] := info[i].(mask := Or32(info[i].mask, UnsafeToBreak));
    }
  }

  /** Within a maximal run, a glyph's run is unsafe exactly when one of the run's glyphs is. */
  lemma RunUnsafeWithin(info: seq<GlyphInfo>, start: int, end: int, k: int)
    requires IsRun(info, start, end) && start <= k < end
    ensures RunUnsafe(info, k) <==> exists j :: start <= j < end && Unsafe(info[j])
  {
    if RunUnsafe(info, k) {
      var j :| 0 <= j < |info| && SameRun(info, j, k) && Unsafe(info[j]);
      assert start <= j < end;
    }
    if exists j :: start <= j < end && Unsafe(info[j]) {
      var j :| start <= j < end && Unsafe(info[j]);
      assert SameRun(info, j, k);
    }
  }

  /**
   * `propagateFlags`: when the buffer has seen an unsafe-to-break glyph,
   * every glyph of a cluster with such a glyph becomes unsafe to break;
   * otherwise nothing changes.
   */
  method PropagateFlags(buffer: Buffer)
    modifies buffer.info
    ensures buffer.scratchFlags & HasUnsafeToBreakFlag == 0 ==> buffer.info[..] == old(buffer.info[..])
    ensures buffer.scratchFlags & HasUnsafeToBreakFlag != 0 ==> buffer.info[..] == Propagated(old(buffer.info[..]))
  {
    if buffer.scratchFlags & HasUnsafeToBreakFlag == 0 {
      return;
    }
    var info := buffer.info;
    ghost var s := info[..];
    var start := 0;
    while start < info.Length
      invariant 0 <= start <= info.Length
      invariant 0 < start < info.Length ==> s[start - 1].cluster != s[start].cluster
      invariant forall k :: 0 <= k < start ==> info[k] == Propagated(s)[k]
      invariant forall k :: start <= k < info.Length ==> info[k] == s[k]
      decreases info.Length - start
    {
      var end := NextCluster(info, start);
      assert IsRun(s, start, end);
      var unsafe := AnyUnsafe(info, start, end);
      if unsafe {
        MarkUnsafe(info, start, end);
      }
      forall k | start <= k < end
        ensures info[k] == Propagated(s)[k]
      {
        RunUnsafeWithin(s, start, end, k);
      }
      start := end;
    }
    assert info[..] == Propagated(s);
  }

  /** The unsafe-to-break flag is the lowest mask bit. */
  lemma UnsafeBit(g: GlyphInfo)
    ensures Unsafe(g) <==> g.mask as nat % 2 == 1
    ensures Unsafe(g.(mask := Or32(g.mask, UnsafeToBreak)))
  {
    AndOne(g.mask as nat);
    AndOne(Or32(g.mask, UnsafeToBreak) as nat);
    OrOne(g.mask as nat);
  }

  /** Two glyphs of one cluster run lie in the same runs as each other. */
  lemma SameRunShared(info: seq<GlyphInfo>, j: int, k: int, m: int)
    requires 0 <= j < |info| && 0 <= k < |info| && 0 <= m < |info|
    requires SameRun(info, j, k) && SameRun(info, m, j)
    ensures SameRun(info, m, k)
  {
  }

  /** After propagation a cluster run is all unsafe to break or all safe. */
  lemma PropagatedUniform(info: seq<GlyphInfo>, j: int, k: int)
    requires 0 <= j < |info| && 0 <= k < |info| && SameRun(info, j, k)
    ensures Unsafe(Propagated(info)[j]) <==> Unsafe(Propagated(info)[k])
  {
    assert SameRun(info, k, j);
    UnsafeBit(info[j]);
    UnsafeBit(info[k]);
    if RunUnsafe(info, j) {
      var m :| 0 <= m < |info| && SameRun(info, m, j) && Unsafe(info[m]);
      SameRunShared(info, j, k, m);
    }
    if RunUnsafe(info, k) {
      var m :| 0 <= m < |info| && SameRun(info, m, k) && Unsafe(info[m]);
      SameRunShared(info, k, j, m);
    }
    assert SameRun(info, j, j) && SameRun(info, k, k);
  }

  /**
   * Propagation only adds the flag: the other mask bits and the rest of the
   * glyph stay, and a glyph already unsafe to break is left as it is.
   */
  lemma PropagatedKeeps(info: seq<GlyphInfo>, k: int)
    requires 0 <= k < |info|
    ensures Propagated(info)[k].mask as nat / 2 == info[k].mask as nat / 2
    ensures Propagated(info)[k].(mask := info[k].mask) == info[k]
    ensures Unsafe(info[k]) ==> Propagated(info)[k] == info[k]
  {
    OrOne(info[k].mask as nat);
    UnsafeBit(info[k]);
  }

  // ---------------------------------------------------------------- fractions

  predicate IsDigit(g: GlyphInfo) { g.category == DecimalNumber }

  predicate IsSlash(g: GlyphInfo) { g.codepoint == FractionSlash }

  /** The first glyph from `k` on that is not a decimal digit, or the end. */
  function NextNonDigit(info: seq<GlyphInfo>, k: int): (m: int)
    requires 0 <= k <= |info|
    ensures k <= m <= |info|
    ensures forall q :: k <= q < m ==> IsDigit(info[q])
    ensures m < |info| ==> !IsDigit(info[m])
    decreases |info| - k
  {
    if k == |info| || !IsDigit(info[k]) then k else NextNonDigit(info, k + 1)
  }

  /** The last glyph up to `k` that is not a decimal digit, or -1. */
  function PrevNonDigit(info: seq<GlyphInfo>, k: int): (m: int)
    requires -1 <= k < |info|
    ensures -1 <= m <= k
    ensures forall q :: m < q <= k ==> IsDigit(info[q])
    ensures m >= 0 ==> !IsDigit(info[m])
    decreases k + 1
  {
    if k == -1 || !IsDigit(info[k]) then k else PrevNonDigit(info, k - 1)
  }

  /** Glyph `k` is a digit of the run just before a fraction slash before position `i`. */
  predicate Numerator(info: seq<GlyphInfo>, k: int, i: int)
    requires 0 <= k < |info|
  {
    var n := NextNonDigit(info, k);
    IsDigit(info[k]) && n < i && n < |info| && IsSlash(info[n])
  }

  /** Glyph `k` is a fraction slash before position `i`. */
  predicate SlashBefore(info: seq<GlyphInfo>, k: int, i: int)
    requires 0 <= k < |info|
  {
    IsSlash(info[k]) && k < i
  }

  /** Glyph `k` is a digit of the run just after a fraction slash before position `i`. */
  predicate Denominator(info: seq<GlyphInfo>, k: int, i: int)
    requires 0 <= k < |info|
  {
    var p := PrevNonDigit(info, k);
    IsDigit(info[k]) && 0 <= p < i && IsSlash(info[p])
  }

  /** The numerator, 'frac' and denominator masks, as chosen. */
  function Bits(num: bool, slash: bool, den: bool, pre: uint32, post: uint32, frac: uint32): uint32
  {
    Or32(Or32(if num then pre else 0, if slash then frac else 0), if den then post else 0)
  }

  /** The fraction bits glyph `k` receives from the fraction slashes before position `i`. */
  function FracBits(info: seq<GlyphInfo>, k: int, i: int, pre: uint32, post: uint32, frac: uint32): uint32
    requires 0 <= k < |info|
  {
    Bits(Numerator(info, k, i), SlashBefore(info, k, i), Denominator(info, k, i), pre, post, frac)
  }

  /** Or-ing a value already present, or 0, changes nothing. */
  lemma OrChoice(c: bool, x: uint32)
    ensures Or32(if c then x else 0, x) == x
  {
    if c { Or32Self(x); } else { Or32Zero(x); }
  }

  /** The last two of three or-ed values may trade places. */
  lemma Or32Swap(x: uint32, y: uint32, z: uint32)
    ensures Or32(Or32(x, y), z) == Or32(Or32(x, z), y)
  {
    Or32Assoc(x, y, z);
    Or32Comm(y, z);
    Or32Assoc(x, z, y);
  }

  /** Adding the numerator mask to a glyph's bits chooses the numerator mask. */
  lemma BitsAddPre(a: bool, b: bool, c: bool, m: uint32, pre: uint32, post: uint32, frac: uint32)
    ensures Or32(Or32(m, Bits(a, b, c, pre, post, frac)), pre) == Or32(m, Bits(true, b, c, pre, post, frac))
  {
    var A, S, D := (if a then pre else 0), (if b then frac else 0), (if c then post else 0);
    Or32Assoc(m, Bits(a, b, c, pre, post, frac), pre);
    Or32Swap(Or32(A, S), D, pre);
    Or32Swap(A, S, pre);
    OrChoice(a, pre);
  }

  /** Adding the 'frac' mask to a glyph's bits chooses the 'frac' mask. */
  lemma BitsAddFrac(a: bool, b: bool, c: bool, m: uint32, pre: uint32, post: uint32, frac: uint32)
    ensures Or32(Or32(m, Bits(a, b, c, pre, post, frac)), frac) == Or32(m, Bits(a, true, c, pre, post, frac))
  {
    var A, S, D := (if a then pre else 0), (if b then frac else 0), (if c then post else 0);
    Or32Assoc(m, Bits(a, b, c, pre, post, frac), frac);
    Or32Swap(Or32(A, S), D, frac);
    Or32Assoc(A, S, frac);
    OrChoice(b, frac);
  }

  /** Adding the denominator mask to a glyph's bits chooses the denominator mask. */
  lemma BitsAddPost(a: bool, b: bool, c: bool, m: uint32, pre: uint32, post: uint32, frac: uint32)
    ensures Or32(Or32(m, Bits(a, b, c, pre, post, frac)), post) == Or32(m, Bits(a, b, true, pre, post, frac))
  {
    var A, S, D := (if a then pre else 0), (if b then frac else 0), (if c then post else 0);
    Or32Assoc(m, Bits(a, b, c, pre, post, frac), post);
    Or32Assoc(Or32(A, S), D, post);
    OrChoice(c, post);
  }

  /** Every glyph with its fraction bits from all slashes of the buffer. */
  function Fractioned(info: seq<GlyphInfo>, pre: uint32, post: uint32, frac: uint32): (r: seq<GlyphInfo>)
    ensures |r| == |info|
  {
    seq(|info|, k requires 0 <= k < |info| =>
      info[k].(mask := Or32(info[k].mask, FracBits(info, k, |info|, pre, post, frac))))
  }

  /** A glyph that is neither a decimal digit nor a fraction slash keeps its mask. */
  lemma FractionedPlain(info: seq<GlyphInfo>, k: int, pre: uint32, post: uint32, frac: uint32)
    requires 0 <= k < |info| && !IsDigit(info[k]) && !IsSlash(info[k])
    ensures Fractioned(info, pre, post, frac)[k] == info[k]
  {
    Or32Zero(0);
    Or32Zero(info[k].mask);
  }

  /** A fraction slash gains the 'frac' mask and nothing else changes. */
  lemma FractionedSlash(info: seq<GlyphInfo>, k: int, pre: uint32, post: uint32, frac: uint32)
    requires 0 <= k < |info| && IsSlash(info[k]) && !IsDigit(info[k])
    ensures Fractioned(info, pre, post, frac)[k] == info[k].(mask := Or32(info[k].mask, frac))
  {
    Or32Zero(frac);
  }

  /**
   * A digit whose run of digits ends at a fraction slash, and does not start
   * right after one, gains the numerator mask.
   */
  lemma FractionedNumerator(info: seq<GlyphInfo>, k: int, n: int, pre: uint32, post: uint32, frac: uint32)
    requires 0 <= k < n < |info| && IsSlash(info[n]) && !IsDigit(info[n])
    requires forall q :: k <= q < n ==> IsDigit(info[q])
    requires !IsSlash(info[k]) && !Denominator(info, k, |info|)
    ensures Fractioned(info, pre, post, frac)[k] == info[k].(mask := Or32(info[k].mask, pre))
  {
    assert NextNonDigit(info, k) == n;
    Or32Zero(pre);
  }

  /**
   * A digit whose run of digits starts right after a fraction slash, and does
   * not end at one, gains the denominator mask.
   */
  lemma FractionedDenominator(info: seq<GlyphInfo>, k: int, p: int, pre: uint32, post: uint32, frac: uint32)
    requires 0 <= p < k < |info| && IsSlash(info[p]) && !IsDigit(info[p])
    requires forall q :: p < q <= k ==> IsDigit(info[q])
    requires !IsSlash(info[k]) && !Numerator(info, k, |info|)
    ensures Fractioned(info, pre, post, frac)[k] == info[k].(mask := Or32(info[k].mask, post))
  {
    assert PrevNonDigit(info, k) == p;
    Or32Zero(0);
    Or32Zero(post);
  }

  /** The masks of the numerator and the denominator, in logical order: swapped for backward text. */
  function FractionMasks(direction: Direction, plan: ShapePlan): (masks: (uint32, uint32))
  {
    var numr, dnom := Or32(plan.numrMask, plan.fracMask), Or32(plan.fracMask, plan.dnomMask);
    if direction.IsForward() then (numr, dnom) else (dnom, numr)
  }

  /** The digits around the fraction slash at `i`: `start` is where the run before it begins, `end` where the run after it ends. */
  method DigitRun(info: array<GlyphInfo>, i: int) returns (start: int, end: int)
    requires 0 <= i < info.Length
    ensures 0 <= start <= i < end <= info.Length
    ensures forall q :: start <= q < i ==> IsDigit(info[q])
    ensures start > 0 ==> !IsDigit(info[start - 1])
    ensures forall q :: i < q < end ==> IsDigit(info[q])
    ensures end < info.Length ==> !IsDigit(info[end])
  {
    start, end := i, i + 1;
    while start != 0 && info[start - 1].category == DecimalNumber
      invariant 0 <= start <= i
      invariant forall q :: start <= q < i ==> IsDigit(info[q])
    {
      start := start - 1;
    }
    while end < info.Length && info[end].category == DecimalNumber
      invariant i < end <= info.Length
      invariant forall q :: i < q < end ==> IsDigit(info[q])
    {
      end := end + 1;
    }
  }

  /** Adds `m` to the masks of the glyphs from `from` to `to`. */
  method OrMasks(info: array<GlyphInfo>, from: int, to: int, m: uint32)
    requires 0 <= from <= to <= info.Length
    modifies info
    ensures forall k :: from <= k < to ==> info[k] == old(info[k]).(mask := Or32(old(info[k]).mask, m))
    ensures forall k :: 0 <= k < info.Length && !(from <= k < to) ==> info[k] == old(info[k])
  {
    for j := from to to
      invariant forall k :: from <= k < j ==> info[k] == old(info[k]).(mask := Or32(old(info[k]).mask, m))
      invariant forall k :: 0 <= k < info.Length && !(from <= k < j) ==> info[k] == old(info[k])
    {
      info[j] := info[j].(mask := Or32(info[j].mask, m));
    }
  }

  /** A glyph that is not a fraction slash adds nothing when the scan passes it. */
  lemma FracBitsPassOther(info: seq<GlyphInfo>, k: int, i: int)
    requires 0 <= k < |info| && 0 <= i < |info| && !IsSlash(info[i])
    ensures Numerator(info, k, i + 1) == Numerator(info, k, i)
    ensures SlashBefore(info, k, i + 1) == SlashBefore(info, k, i)
    ensures Denominator(info, k, i + 1) == Denominator(info, k, i)
  {
  }

  /**
   * Passing the fraction slash at `i`, with the digit runs from `start` to
   * `end` around it, adds the digits before it to the numerators, the slash
   * to the slashes and the digits after it to the denominators, and nothing
   * else.
   */
  lemma FracBitsPassSlash(info: seq<GlyphInfo>, k: int, i: int, start: int, end: int)
    requires 0 <= k < |info| && 0 <= start <= i < end <= |info|
    requires IsSlash(info[i]) && !IsDigit(info[i])
    requires forall q :: start <= q < i ==> IsDigit(info[q])
    requires start > 0 ==> !IsDigit(info[start - 1])
    requires forall q :: i < q < end ==> IsDigit(info[q])
    requires end < |info| ==> !IsDigit(info[end])
    requires forall q :: i < q < end ==> !IsSlash(info[q])
    ensures Numerator(info, k, end) == (Numerator(info, k, i) || start <= k < i)
    ensures SlashBefore(info, k, end) == (SlashBefore(info, k, i) || k == i)
    ensures Denominator(info, k, end) == (Denominator(info, k, i) || i < k < end)
  {
    var n := NextNonDigit(info, k);
    var p := PrevNonDigit(info, k);
    if start <= k < i {
      assert n == i;
    } else if i < k < end {
      assert p == i;
    } else if k != i && IsDigit(info[k]) {
      if k < start {
        assert n < start;
      } else {
        assert p >= end;
      }
    }
  }

  /** The digit runs from `start` to `end` around the fraction slash at `i`. */
  predicate SlashRuns(info: seq<GlyphInfo>, i: int, start: int, end: int)
  {
    && 0 <= start <= i < end <= |info|
    && IsSlash(info[i]) && !IsDigit(info[i])
    && (forall q :: start <= q < i ==> IsDigit(info[q]))
    && (start > 0 ==> !IsDigit(info[start - 1]))
    && (forall q :: i < q < end ==> IsDigit(info[q]))
    && (end < |info| ==> !IsDigit(info[end]))
    && (forall q :: i < q < end ==> !IsSlash(info[q]))
  }

  /** A digit before the slash at `i` gains the numerator mask as the scan passes the slash. */
  lemma PassSlashPre(info: seq<GlyphInfo>, k: int, i: int, start: int, end: int, pre: uint32, post: uint32, frac: uint32)
    requires SlashRuns(info, i, start, end) && start <= k < i
    ensures Or32(Or32(info[k].mask, FracBits(info, k, i, pre, post, frac)), pre) == Or32(info[k].mask, FracBits(info, k, end, pre, post, frac))
  {
    FracBitsPassSlash(info, k, i, start, end);
    BitsAddPre(Numerator(info, k, i), SlashBefore(info, k, i), Denominator(info, k, i), info[k].mask, pre, post, frac);
  }

  /** The slash at `i` gains the 'frac' mask as the scan passes it. */
  lemma PassSlashFrac(info: seq<GlyphInfo>, i: int, start: int, end: int, pre: uint32, post: uint32, frac: uint32)
    requires SlashRuns(info, i, start, end)
    ensures Or32(Or32(info[i].mask, FracBits(info, i, i, pre, post, frac)), frac) == Or32(info[i].mask, FracBits(info, i, end, pre, post, frac))
  {
    FracBitsPassSlash(info, i, i, start, end);
    BitsAddFrac(Numerator(info, i, i), SlashBefore(info, i, i), Denominator(info, i, i), info[i].mask, pre, post, frac);
  }

  /** A digit after the slash at `i` gains the denominator mask as the scan passes the slash. */
  lemma PassSlashPost(info: seq<GlyphInfo>, k: int, i: int, start: int, end: int, pre: uint32, post: uint32, frac: uint32)
    requires SlashRuns(info, i, start, end) && i < k < end
    ensures Or32(Or32(info[k].mask, FracBits(info, k, i, pre, post, frac)), post) == Or32(info[k].mask, FracBits(info, k, end, pre, post, frac))
  {
    FracBitsPassSlash(info, k, i, start, end);
    BitsAddPost(Numerator(info, k, i), SlashBefore(info, k, i), Denominator(info, k, i), info[k].mask, pre, post, frac);
  }

  /** Every other glyph gains nothing as the scan passes the slash at `i`. */
  lemma PassSlashOther(info: seq<GlyphInfo>, k: int, i: int, start: int, end: int, pre: uint32, post: uint32, frac: uint32)
    requires SlashRuns(info, i, start, end) && 0 <= k < |info| && !(start <= k < end)
    ensures FracBits(info, k, end, pre, post, frac) == FracBits(info, k, i, pre, post, frac)
  {
    FracBitsPassSlash(info, k, i, start, end);
  }

  /**
   * The body of `setupMasksFraction` at the fraction slash at `i`: the
   * digits before it get the numerator mask, the slash the 'frac' mask, the
   * digits after it the denominator mask, and the scan goes on after them.
   */
  method MarkFraction(info: array<GlyphInfo>, i: int, preMask: uint32, postMask: uint32, fracMask: uint32,
                      ghost s: seq<GlyphInfo>) returns (end: int)
    requires 0 <= i < info.Length == |s| && IsSlash(s[i])
    requires forall k :: 0 <= k < |s| && IsSlash(s[k]) ==> !IsDigit(s[k])
    requires forall k :: 0 <= k < |s| ==> info[k] == s[k].(mask := Or32(s[k].mask, FracBits(s, k, i, preMask, postMask, fracMask)))
    modifies info
    ensures i < end <= |s|
    ensures forall k :: 0 <= k < |s| ==> info[k] == s[k].(mask := Or32(s[k].mask, FracBits(s, k, end, preMask, postMask, fracMask)))
  {
    var start;
    start, end := DigitRun(info, i);
    assert forall q :: 0 <= q < |s| ==> IsDigit(info[q]) == IsDigit(s[q]);
    assert SlashRuns(s, i, start, end);
    OrMasks(info, start, i, preMask);
    info[i] := info[i].(mask := Or32(info[i].mask, fracMask));
    OrMasks(info, i + 1, end, postMask);
    forall k | 0 <= k < |s|
      ensures info[k] == s[k].(mask := Or32(s[k].mask, FracBits(s, k, end, preMask, postMask, fracMask)))
    {
      if start <= k < i {
        PassSlashPre(s, k, i, start, end, preMask, postMask, fracMask);
      } else if k == i {
        PassSlashFrac(s, i, start, end, preMask, postMask, fracMask);
      } else if i < k < end {
        PassSlashPost(s, k, i, start, end, preMask, postMask, fracMask);
      } else {
        PassSlashOther(s, k, i, start, end, preMask, postMask, fracMask);
      }
    }
  }

  /**
   * `setupMasksFraction`: when the buffer holds non-ASCII text and the plan
   * does fractions, every fraction slash gets the 'frac' mask, the run of
   * decimal digits before it the numerator mask and the run after it the
   * denominator mask (in logical order); otherwise nothing changes. Fraction
   * slashes are no decimal digits, as in the Unicode database.
   */
  method SetupMasksFraction(buffer: Buffer, plan: ShapePlan)
    requires forall k :: 0 <= k < buffer.info.Length && IsSlash(buffer.info[k]) ==> !IsDigit(buffer.info[k])
    modifies buffer.info
    ensures buffer.scratchFlags & HasNonAscii == 0 || !plan.hasFrac ==> buffer.info[..] == old(buffer.info[..])
    ensures buffer.scratchFlags & HasNonAscii != 0 && plan.hasFrac ==>
      var (pre, post) := FractionMasks(buffer.direction, plan);
      buffer.info[..] == Fractioned(old(buffer.info[..]), pre, post, plan.fracMask)
  {
    if buffer.scratchFlags & HasNonAscii == 0 || !plan.hasFrac {
      return;
    }
    var info := buffer.info;
    var (preMask, postMask) := FractionMasks(buffer.direction, plan);
    var fracMask := plan.fracMask;
    ghost var s := info[..];
    var count := info.Length;
    var i := 0;
    while i < count
      invariant 0 <= i <= count
      invariant forall k :: 0 <= k < count ==>
        info[k] == s[k].(mask := Or32(s[k].mask, FracBits(s, k, i, preMask, postMask, fracMask)))
    {
      if info[i].codepoint == FractionSlash {
        i := MarkFraction(info, i, preMask, postMask, fracMask, s);
      } else {
        forall k | 0 <= k < count
          ensures FracBits(s, k, i + 1, preMask, postMask, fracMask) == FracBits(s, k, i, preMask, postMask, fracMask)
        {
          FracBitsPassOther(s, k, i);
        }
        i := i + 1;
      }
    }
    assert forall k :: 0 <= k < count ==> info[k] == Fractioned(s, preMask, postMask, fracMask)[k];
    assert info[..] == Fractioned(s, preMask, postMask, fracMask);
  }

  // ---------------------------------------------------------------- plan decisions

  /** Special value of a feature index: the feature is not in the font. */
  const NoFeatureIndex: int := 0xFFFF

  /**
   * What `compile` asks of the planner. From the compiled feature map: the
   * 1-masks (`getMask1`) of 'frac', 'numr', 'dnom', 'rtlm', 'vert' and
   * 'mark', the masks (`getMask`) of 'kern', 'vkrn' and 'trak', and the GPOS
   * feature indices of 'kern' and 'vkrn'; a feature the map lacks has mask 0
   * and index `NoFeatureIndex`. Then the chosen GPOS script, the complex
   * shaper's GPOS tag and mark behaviour, and the facts it reads about the
   * font's layout tables.
   */
  datatype Planner = Planner(
    direction: Direction,
    fracMask1: uint32, numrMask1: uint32, dnomMask1: uint32, rtlmMask1: uint32, vertMask1: uint32, markMask1: uint32,
    kernMask: uint32, vkrnMask: uint32, trakMask: uint32,
    gposKernIndex: int, gposVkrnIndex: int,
    chosenGposScript: Tag,
    shaperGposTag: Tag,
    hasGdefClasses: bool,
    hasKerx: bool,
    gposLookups: nat,
    hasKern: bool,
    machineKerning: bool,
    crossKerning: bool,
    trakEmpty: bool,
    applyMorx: bool,
    scriptZeroMarks: bool,
    scriptFallbackMarkPositioning: bool)
  {
    /** The mask of the kerning feature of the direction: 'kern' horizontally, 'vkrn' vertically. */
    function KerningMask(): uint32 { if direction.IsHorizontal() then kernMask else vkrnMask }

    /** The GPOS index of the kerning feature of the direction. */
    function KerningIndex(): int { if direction.IsHorizontal() then gposKernIndex else gposVkrnIndex }

    /** The complex shaper asks for a GPOS script the font did not provide. */
    predicate DisableGpos() { shaperGposTag != 0 && shaperGposTag != chosenGposScript }

    predicate HasGposKern() { KerningIndex() != NoFeatureIndex }
  }

  /**
   * The decisions of a shape plan, one value per field of `otShapePlan` that
   * `compile` sets: the feature masks, whether fractions, tracking, kerning,
   * 'vert' and GPOS 'mark' are wanted, how marks are treated, and who
   * provides glyph classes, substitution and positioning. The plan is a
   * struct that `newOtShapePlan` returns by value.
   */
  datatype ShapePlan = ShapePlan(
    fracMask: uint32, numrMask: uint32, dnomMask: uint32, rtlmMask: uint32, kernMask: uint32, trakMask: uint32,
    hasFrac: bool, requestedTracking: bool, requestedKerning: bool, hasVert: bool, hasGposMark: bool,
    zeroMarks: bool, fallbackGlyphClasses: bool, fallbackMarkPositioning: bool,
    adjustMarkPositioningWhenZeroing: bool,
    applyGpos: bool, applyKern: bool, applyKerx: bool, applyMorx: bool, applyTrak: bool)

  /** The zero value `newOtShapePlan` declares. */
  const ZeroPlan := ShapePlan(0, 0, 0, 0, 0, 0, false, false, false, false, false,
                              false, false, false, false, false, false, false, false, false)

  /** Fractions are done with 'frac', or with both 'numr' and 'dnom'. */
  predicate HasFrac(p: Planner) { p.fracMask1 != 0 || (p.numrMask1 != 0 && p.dnomMask1 != 0) }

  /**
   * kerx positions when the font has a kerx table (or the plan already
   * applied it). The second kerx test of the source (kerx when GPOS did not
   * kern) cannot add to this: it is only reached when kerx is still off,
   * which is only when the font has no kerx table.
   */
  predicate AppliesKerx(p: Planner, plan: ShapePlan) { plan.applyKerx || p.hasKerx }

  /** GPOS positions when there is no kerx, morx is off, the shaper keeps GPOS and the font has lookups. */
  predicate AppliesGpos(p: Planner, plan: ShapePlan)
  {
    plan.applyGpos || (!p.hasKerx && !p.applyMorx && !p.DisableGpos() && p.gposLookups != 0)
  }

  /** kern positions when kerx does not, GPOS does not kern, and the font has a kern table. */
  predicate AppliesKern(p: Planner, plan: ShapePlan)
  {
    plan.applyKern || (!AppliesKerx(p, plan) && (!p.HasGposKern() || !AppliesGpos(p, plan)) && p.hasKern)
  }

  /** Marks are zeroed when the script asks for it, without kerx and without machine kerning. */
  predicate ZeroesMarks(p: Planner, plan: ShapePlan)
  {
    p.scriptZeroMarks && !AppliesKerx(p, plan) && (!AppliesKern(p, plan) || !p.machineKerning)
  }

  /** Zeroed marks keep their offsets when neither GPOS nor kerx positions and kern does not cross-kern. */
  predicate AdjustsMarks(p: Planner, plan: ShapePlan)
  {
    !AppliesGpos(p, plan) && !AppliesKerx(p, plan) && (!AppliesKern(p, plan) || !p.crossKerning)
  }

  /**
   * `otShapePlanner.compile`, the decisions part, as the plan it leaves
   * behind: masks and most flags are overwritten, while glyph-class
   * fallback, kerx, GPOS and kern are only ever switched on.
   */
  function Compile(p: Planner, plan: ShapePlan): (r: ShapePlan)
    ensures r.fracMask == p.fracMask1 && r.numrMask == p.numrMask1 && r.dnomMask == p.dnomMask1
    ensures r.rtlmMask == p.rtlmMask1 && r.trakMask == p.trakMask
    ensures p.direction.IsHorizontal() ==> r.kernMask == p.kernMask
    ensures !p.direction.IsHorizontal() ==> r.kernMask == p.vkrnMask
    ensures r.hasVert == (p.vertMask1 != 0) && r.hasGposMark == (p.markMask1 != 0)
    ensures r.applyMorx == p.applyMorx
    ensures plan.fallbackGlyphClasses ==> r.fallbackGlyphClasses
    ensures plan.applyGpos ==> r.applyGpos
    ensures plan.applyKern ==> r.applyKern
    ensures plan.applyKerx ==> r.applyKerx
  {
    var kernMask := p.KerningMask();
    var adjust := AdjustsMarks(p, plan);
    ShapePlan(p.fracMask1, p.numrMask1, p.dnomMask1, p.rtlmMask1, kernMask, p.trakMask,
      HasFrac(p), p.trakMask != 0, kernMask != 0, p.vertMask1 != 0, p.markMask1 != 0,
      ZeroesMarks(p, plan), plan.fallbackGlyphClasses || !p.hasGdefClasses,
      adjust && p.scriptFallbackMarkPositioning, adjust,
      AppliesGpos(p, plan), AppliesKern(p, plan), AppliesKerx(p, plan), p.applyMorx, p.trakMask != 0 && !p.trakEmpty)
  }

  /**
   * The decisions agree with the planner: kerx is applied exactly when the
   * font has a kerx table, never together with GPOS; GPOS exactly when the
   * font has lookups, morx is off, the shaper keeps GPOS and there is no
   * kerx; kern exactly when the font has a kern table, there is no kerx and
   * GPOS does not kern; marks are zeroed only without kerx, and fall back to
   * mark positioning only where they are adjusted when zeroed, which is
   * only without GPOS and kerx; fractions are done with 'frac', or with
   * both 'numr' and 'dnom'; tracking applies only when requested; glyph
   * classes fall back to Unicode exactly without GDEF classes.
   */
  predicate Consistent(p: Planner, d: ShapePlan)
  {
    && (d.applyKerx <==> p.hasKerx)
    && !(d.applyGpos && d.applyKerx)
    && (d.applyGpos <==> p.gposLookups != 0 && !p.applyMorx && !p.DisableGpos() && !p.hasKerx)
    && (d.applyKern <==> p.hasKern && !p.hasKerx && !(d.applyGpos && p.HasGposKern()))
    && (d.zeroMarks ==> !d.applyKerx)
    && (d.fallbackMarkPositioning ==> d.adjustMarkPositioningWhenZeroing)
    && (d.adjustMarkPositioningWhenZeroing ==> !d.applyGpos && !d.applyKerx)
    && (d.hasFrac <==> d.fracMask != 0 || (d.numrMask != 0 && d.dnomMask != 0))
    && (d.requestedKerning <==> d.kernMask != 0)
    && (d.requestedTracking <==> d.trakMask != 0)
    && (d.applyTrak ==> d.requestedTracking)
    && (d.fallbackGlyphClasses <==> !p.hasGdefClasses)
  }

  /** `newOtShapePlan`, the decisions part: the zero plan, compiled. */
  function NewShapePlan(p: Planner): (r: ShapePlan)
    ensures Consistent(p, r)
  {
    Compile(p, ZeroPlan)
  }

  /** Compiling again changes nothing: a new plan is a fixed point of `compile`. */
  lemma CompileIdempotent(p: Planner)
    ensures Compile(p, NewShapePlan(p)) == NewShapePlan(p)
  {
  }

  /** Which table positions the glyphs. */
  datatype PositionTable = GposTable | KerxTable | KernTable | NoTable

  /** `position`: GPOS, else kerx, else kern — at most one of them. */
  function Positioner(d: ShapePlan): (t: PositionTable)
    ensures t == GposTable <==> d.applyGpos
    ensures t == KerxTable <==> d.applyKerx && !d.applyGpos
    ensures t == KernTable <==> d.applyKern && !d.applyGpos && !d.applyKerx
    ensures t == NoTable <==> !d.applyGpos && !d.applyKerx && !d.applyKern
  {
    if d.applyGpos then GposTable
    else if d.applyKerx then KerxTable
    else if d.applyKern then KernTable
    else NoTable
  }

  /**
   * On a consistent plan, kerx positions exactly when the font has a kerx
   * table, GPOS exactly when the font has lookups, morx is off, the shaper
   * keeps GPOS and there is no kerx, and kern exactly when the font has a
   * kern table and the other two do not position.
   */
  lemma PositionerOfConsistent(p: Planner, d: ShapePlan)
    requires Consistent(p, d)
    ensures Positioner(d) == KerxTable <==> p.hasKerx
    ensures Positioner(d) == GposTable <==> p.gposLookups != 0 && !p.applyMorx && !p.DisableGpos() && !p.hasKerx
    ensures Positioner(d) == KernTable <==> p.hasKern && !p.hasKerx && !d.applyGpos
  {
  }

  /** `substitute`: morx when the plan applies it, GSUB otherwise. */
  datatype SubstituteTable = MorxTable | GsubTable

  function Substitutor(d: ShapePlan): (t: SubstituteTable)
    ensures t == MorxTable <==> d.applyMorx
  {
    if d.applyMorx then MorxTable else GsubTable
  }
}

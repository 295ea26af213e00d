# textlayout core, modelled in Dafny

This project models and proves the integer, byte and list logic at the core of
the Go text-layout library `textlayout`:

- **Graphite.** The virtual machine's fixed 1024-entry `int32` operand stack (push-immediate,
  arithmetic, comparison, logical and `cond` instructions) and the segment's
  doubly-linked glyph slot list: `appendSlot`, `reverseSlots` (reverse for right-to-left
  text, with each diacritic run kept behind its base), the bounds-checked table lookups,
  the skip-pass mask and the cached bidi class.
- **TrueType/OpenType tables.** The Coverage and Class Definition tables of the
  "OpenType Layout Common Table Formats" chapter (both formats, parsing and lookup), the
  'loca' table, and the 'glyf' table: simple glyphs (flags, delta coordinates, end points),
  composite glyphs (component records) and instruction blocks.
- **Tags.** BCP 47 tag canonicalisation (RFC 5646); ISO 15924 script codes to OpenType
  script tags (old-style, '…2' and '…3'); the `-hbsc`/`-hbot` private-use subtags (section
  2.2.7 of RFC 5646).
- **HarfBuzz shaping passes.** `vertCharFor`, fraction masks, mark-width zeroing,
  synthesised glyph classes, unsafe-to-break propagation, and the GPOS/kerx/kern decisions
  of `compile` with the `position` dispatch.
- **Pango itemizer helpers.** The `isUpright` search over the UAX #50 upright table, the
  width-run iterator, the context serial, run ends, embedding runs, the bidi level under
  gravity, and item building.
- **Pango ellipsizer.** The gap-growing algorithm over a line of runs and clusters.

Go integer widths are explicit where the model's properties depend on them: `int32` and
`int16` wrap-around in the Graphite machine, truncating division, `uint16` glyph
arithmetic, 64-bit serials, `int8` levels. The ellipsizer's `int32` widths are unbounded
integers (see "Left out"). Parsers return `Result` values.
After a parse, the code that reads past the end or indexes out of range panics; that
becomes an `Outcome` with a `Panic` case, or a precondition where the Go caller guarantees
the index.

Proof structure:

- Each loop is a method proved against a specification function.
- The properties are stated about those functions: lookups are exact, parsing inverts
  encoding, reordering is a permutation and an involution, passes are idempotent, and the
  unmodified part of the state is unchanged.
- Objects the source updates in place are classes:
  - the stack, the segment and the glyph buffer;
  - the width iterator, the context and the itemizer state;
  - the ellipsizer state and the ellipsis run.

Files:

- `common.dfy`: results, fixed-width integers, big-endian reads, bit operations.
- `graphite_stack.dfy`: the stack machine.
- Slot list:
  - `graphite_segment.dfy`: the segment class;
  - `slot_order.dfy`: the order `reverseSlots` produces, as a function on lists;
  - `slot_links.dfy`: the link invariants of the loop.
- `tt_common.dfy`: Coverage and Class Definition tables.
- `tt_glyf.dfy`: 'loca' and 'glyf'.
- `language.dfy`: tag canonicalisation.
- `ot_tag.dfy`: script and private-use tags.
- `ot_shaper.dfy`: the shaping passes and plan decisions.
- Pango:
  - `pango_upright.dfy`: the upright table and its sortedness;
  - `pango_context.dfy`: the itemizer helpers;
  - `pango_ellipsize.dfy`: the ellipsizer.

Where the documentation and the code disagree, the model follows the code. Two cases:

- `NewLanguage`'s comment promises letters and '-' only, but the table also keeps digits.
  `Language.CanonMap` keeps them.
- The same comment promises that other characters are stripped, but characters from U+0100
  on panic. See Findings.

## Model

| member | source | states |
|---|---|---|
| GraphiteStack.SignedByte | graphite/code_operations.go:81-85 | the operand byte read as signed: in [-128,128), congruent to the byte mod 2^8, equal to it below 0x80 |
| GraphiteStack.SignedShort | graphite/code_operations.go:93-98 | two bytes big-endian as signed 16 bits: in [-2^15,2^15) and congruent to hi·256+lo mod 2^16 |
| GraphiteStack.UnsignedShort | graphite/code_operations.go:100-105 | two bytes big-endian as unsigned 16 bits: hi and lo are its high and low byte |
| GraphiteStack.SignedLong | graphite/code_operations.go:107-112 | four bytes big-endian as int32: congruent to the unsigned reading mod 2^32, equal to it when the top bit is clear |
| GraphiteStack.Add32 | graphite/code_operations.go:114-118 | int32 sum with wrap-around: congruent to a+b mod 2^32 |
| GraphiteStack.Sub32 | graphite/code_operations.go:120-124 | int32 difference with wrap-around |
| GraphiteStack.Mul32 | graphite/code_operations.go:126-130 | int32 product with wrap-around |
| GraphiteStack.Neg32 | graphite/code_operations.go:159-162 | int32 negation with wrap-around |
| GraphiteStack.Div32 | graphite/code_operations.go:132-141 | Go's truncating quotient: the remainder is smaller than the divisor in magnitude and has the dividend's sign |
| GraphiteStack.Trunc8 | graphite/code_operations.go:164-167 | a value in [0,255] equal to the operand's low 8 bits |
| GraphiteStack.Trunc16 | graphite/code_operations.go:169-172 | a value in [0,65535] equal to the operand's low 16 bits |
| GraphiteStack.Min32 | graphite/code_operations.go:143-150 | one of the operands, and at most both |
| GraphiteStack.Max32 | graphite/code_operations.go:152-157 | one of the operands, and at least both |
| GraphiteStack.BoolToInt | graphite/code_operations.go:186-189 | 1 exactly for true, otherwise 0 |
| GraphiteStack.QuotientFits | graphite/code_operations.go:132-141 | off the two hazards the truncated quotient fits in int32 |
| GraphiteStack.Int32Unique | graphite/code_operations.go:114-130 | int32 values congruent mod 2^32 are equal, so the wrap-around results are determined |
| GraphiteStack.SubUndoesAdd | graphite/code_operations.go:114-124 | `sub` undoes `add`, wrap-around included |
| GraphiteStack.NegInvolutive | graphite/code_operations.go:159-162 | negating twice gives the value back; MinInt32 is its own negation |
| GraphiteStack.TruncIdempotent | graphite/code_operations.go:164-172 | truncating twice is truncating once |
| GraphiteStack.DivExamples | graphite/code_operations.go:132-141 | 7/2, -7/2, 7/-2, -7/-2 give 3, -3, -3, 3 (toward zero) |
| GraphiteStack.Stack.constructor | graphite/code_operations.go:59-64 | an empty stack over a 1024-entry array |
| GraphiteStack.Stack.Push | graphite/code_operations.go:66-69 | the contents gain the value on top; the requires excludes a push onto a full stack, where Go's bounds check on `vals[1024]` panics |
| GraphiteStack.Stack.Pop | graphite/code_operations.go:71-75 | the old contents are the new contents plus the returned top |
| GraphiteStack.Stack.SetTop | graphite/code_operations.go:114-242 | the top entry is replaced and the rest kept |
| GraphiteStack.Stack.Nop | graphite/code_operations.go:77-79 | reports exactly whether the stack is below capacity, changing nothing |
| GraphiteStack.Stack.PushByte | graphite/code_operations.go:81-85 | pushes the sign-extended operand byte and reports `top < stackMax` |
| GraphiteStack.Stack.PushByteU | graphite/code_operations.go:87-91 | pushes the zero-extended operand byte and reports `top < stackMax` |
| GraphiteStack.Stack.PushShort | graphite/code_operations.go:93-98 | pushes the signed big-endian short and reports `top < stackMax` |
| GraphiteStack.Stack.PushShortU | graphite/code_operations.go:100-105 | pushes the unsigned big-endian short and reports `top < stackMax` |
| GraphiteStack.Stack.PushLong | graphite/code_operations.go:107-112 | pushes the big-endian int32 and reports `top < stackMax` |
| GraphiteStack.Stack.Add | graphite/code_operations.go:114-118 | the two top entries become their wrapped sum; everything below is unchanged |
| GraphiteStack.Stack.Sub | graphite/code_operations.go:120-124 | the two top entries become a-b wrapped; everything below is unchanged |
| GraphiteStack.Stack.Mul | graphite/code_operations.go:126-130 | the two top entries become a·b wrapped; everything below is unchanged |
| GraphiteStack.Stack.Div | graphite/code_operations.go:132-141 | on b == 0 or MinInt32/-1 fails with b popped and a left; otherwise the truncated quotient replaces both |
| GraphiteStack.Stack.Min | graphite/code_operations.go:143-150 | the two top entries become the smaller |
| GraphiteStack.Stack.Max | graphite/code_operations.go:152-157 | the two top entries become the larger |
| GraphiteStack.Stack.Neg | graphite/code_operations.go:159-162 | the top is negated with wrap-around; reports `top < stackMax` |
| GraphiteStack.Stack.TruncByte | graphite/code_operations.go:164-167 | the top is cut to its low byte; reports `top < stackMax` |
| GraphiteStack.Stack.TruncShort | graphite/code_operations.go:169-172 | the top is cut to its low 16 bits; reports `top < stackMax` |
| GraphiteStack.Stack.Cond | graphite/code_operations.go:174-184 | the three top entries become t when c != 0, else f (net top - 2) |
| GraphiteStack.Stack.And | graphite/code_operations.go:191-195 | the two top entries become 1 when both are non-zero, else 0 |
| GraphiteStack.Stack.Or | graphite/code_operations.go:197-201 | the two top entries become 1 when either is non-zero, else 0 |
| GraphiteStack.Stack.Not | graphite/code_operations.go:203-206 | the top becomes 1 exactly when it was 0 |
| GraphiteStack.Stack.Equal | graphite/code_operations.go:208-212 | the two top entries become 1 exactly when equal |
| GraphiteStack.Stack.NotEqual | graphite/code_operations.go:214-218 | the two top entries become 1 exactly when different |
| GraphiteStack.Stack.Less | graphite/code_operations.go:220-224 | the two top entries become 1 exactly when a < b |
| GraphiteStack.Stack.Greater | graphite/code_operations.go:226-230 | the two top entries become 1 exactly when a > b |
| GraphiteStack.Stack.LessEqual | graphite/code_operations.go:232-236 | the two top entries become 1 exactly when a <= b |
| GraphiteStack.Stack.GreaterEqual | graphite/code_operations.go:238-242 | the two top entries become 1 exactly when a >= b |
| GraphiteSegment.CurrDir | graphite/segment.go:69 | the current direction is whether bit 6 and bit 0 of `dir` differ |
| GraphiteSegment.ToggleFlipsCurrDir | graphite/segment.go:124-125 | toggling bit 64 flips `currdir()`, and toggling twice restores `dir` |
| GraphiteSegment.AttrBits | graphite/segment.go:114-120 | an int16 attribute as uint32 is sign-extended (congruent mod 2^32) |
| GraphiteSegment.Shl16 | graphite/segment.go:114-120 | the shifted high attribute has its low 16 bits clear |
| GraphiteSegment.Root | graphite/segment.go:270-275 | the root of an attachment chain is a slot without parent |
| GraphiteSegment.FindRoot | graphite/segment.go:270-275 | the walk up `parent` ends at that root, a slot without parent |
| GraphiteSegment.Segment.constructor | graphite/segment.go:45-66 | an empty, well-linked slot list with a char-info table per character and the face's lookups |
| GraphiteSegment.Segment.ValidLocallyLinked | graphite/segment.go:91-112 | in a valid segment `s.next.prev == s` and `s.prev.next == s` for every slot |
| GraphiteSegment.Segment.CurrentDir | graphite/segment.go:69 | the segment's `currdir()` |
| GraphiteSegment.Segment.GetCharInfo | graphite/segment.go:248-253 | nil exactly when the index is past the table, otherwise that entry |
| GraphiteSegment.Segment.GetCollisionInfo | graphite/segment.go:256-261 | nil exactly when the slot's index is past the table, otherwise that entry |
| GraphiteSegment.Segment.MergePassBits | graphite/segment.go:71 | the mask is ANDed in, so bits can only be cleared; nothing else changes |
| GraphiteSegment.Segment.LookupClass | graphite/segment.go:238-245 | a hit returns the cached class; a miss computes it and stores it, so the diacritic set stays the same |
| GraphiteSegment.Segment.GetSlotBidiClass | graphite/segment.go:238-245 | the cached class when not -1, else the face lookup now cached; nothing else changes |
| GraphiteSegment.Segment.AppendSlot | graphite/segment.go:91-121 | records the character; the new slot is `last`, linked after the old last (or `first` of an empty list), `original = before = after = index`, cache cleared; passBits only ANDed; the list stays valid |
| GraphiteSegment.Segment.SetCharInfo | graphite/segment.go:94-101 | the character records its code and, when the glyph exists, the glyph's break weight; no other character changes |
| GraphiteSegment.Segment.SkipPasses | graphite/segment.go:114-120 | with an existing glyph and a skip-passes attribute, `passBits` is ANDed with the glyph's mask; otherwise it is unchanged; bits are only cleared |
| GraphiteSegment.Segment.AppendLinked | graphite/segment.go:103-112 | the new slot becomes `last`, linked after the old last or as `first` of an empty list; the list stays valid |
| GraphiteSegment.Segment.AppendedLinks | graphite/segment.go:105-112 | the links with the new slot hooked after the last form a list over every slot, in the old order followed by the new slot |
| GraphiteSegment.Segment.ReverseSlots | graphite/segment.go:124-182 | toggles the reverse flag; the new order is `Reordered` of the old (bases reversed, each diacritic run behind its base, a leading run in front); the list stays valid; slots and diacritics unchanged |
| GraphiteSegment.Segment.ReversedLinks | graphite/segment.go:124-182 | the links, head and tail after reversal form a list, over every slot, in the order `Reordered` |
| GraphiteSegment.Segment.ShortListKept | graphite/segment.go:126-128 | with 0 or 1 slots the order is its own reordering |
| GraphiteSegment.Segment.AllMarksKept | graphite/segment.go:135-181 | a list made only of diacritics is left as it is |
| GraphiteSegment.Segment.ReverseFrom | graphite/segment.go:144-181 | from the first base on, the main loop and the hook-up produce a list in the order `Reordered` |
| GraphiteSegment.Segment.ReverseRuns | graphite/segment.go:144-174 | the main loop keeps the reversal invariant up to the end of the list |
| GraphiteSegment.Segment.RunStep | graphite/segment.go:145-172 | one turn of the loop handles a base or a whole diacritic run and keeps the invariant |
| GraphiteSegment.Segment.MarkTurn | graphite/segment.go:145-164 | the diacritic branch advances past the whole run and keeps the reversal invariant |
| GraphiteSegment.Segment.BaseTurn | graphite/segment.go:165-172 | the base branch advances by one slot and keeps the reversal invariant |
| GraphiteSegment.Segment.SkipMarks | graphite/segment.go:135-140 | stops at the first base; everything before it is a diacritic |
| GraphiteSegment.Segment.MoveBase | graphite/segment.go:165-172 | the base becomes the head of the reversed part |
| GraphiteSegment.Segment.MoveMarks | graphite/segment.go:145-164 | a diacritic run moves right behind the base it followed |
| GraphiteSegment.Segment.ScanMarks | graphite/segment.go:147-149 | finds the end of the diacritic run: all diacritics up to a base or the end |
| GraphiteSegment.Segment.PositionSlots | graphite/segment.go:185-227 | an empty segment returns early (reversed once when the direction differs); otherwise the two reversals cancel: order, links, head, tail and `dir` are restored |
| GraphiteSegment.Segment.ReverseBack | graphite/segment.go:220-222 | reversing the reversed list restores the order, links, head and tail it started from and toggles the flag back |
| GraphiteSegment.Segment.DoMirror | graphite/segment.go:229-236 | a slot whose glyph has a mirror (and `dir&4 == 0` or no second mirror) takes it with its cache cleared; every other slot and the list are unchanged |
| GraphiteSegment.Segment.MirroredColumns | graphite/segment.go:229-236 | the walk along the list, on copies of the slot and cache columns, gives each slot with a mirror glyph that glyph and a cleared cache, and leaves every other slot as it was |
| SlotOrder.LastBase | graphite/segment.go:144-174 | the index of the last base, with only diacritics after it |
| SlotOrder.FirstBase | graphite/segment.go:135-140 | the index of the first base, with only diacritics before it |
| SlotOrder.RevClustersLength | graphite/segment.go:144-174 | reversing the clusters keeps the length |
| SlotOrder.RevClustersElements | graphite/segment.go:144-174 | reversing the clusters is a permutation (same multiset) |
| SlotOrder.RevClustersDistinct | graphite/segment.go:144-174 | on distinct slots the reversal is distinct and holds the same slots |
| SlotOrder.RevClustersInvolutive | graphite/segment.go:144-174 | reversing the clusters twice gives the list back when it starts with a base |
| SlotOrder.ReorderedInvolutive | graphite/segment.go:190-225 | two `reverseSlots` orders restore the original, on every list |
| SlotOrder.ReorderedShort | graphite/segment.go:126-128 | 0 or 1 slots are left as they are |
| SlotOrder.ReorderedPermutes | graphite/segment.go:124-182 | reordering keeps the length and multiset, and distinctness |
| SlotOrder.ReorderedBases | graphite/segment.go:144-174 | the bases of the reordered list are the original bases in reverse |
| SlotLinks.ListLocallyLinked | graphite/segment.go:104-112 | a doubly-linked list over every slot satisfies `next.prev == s` |
| SlotLinks.ListDeterminesLinks | graphite/segment.go:124-182 | the order of a list over every slot determines all its links |
| TTCommon.SearchFinds | fonts/truetype/table_common.go:116 | on sorted keys `sort.Search` finds the first key at or above the glyph |
| TTCommon.ClassID1 | fonts/truetype/table_common.go:49-54 | `(classIDs[gi-startGlyph], true)` exactly when `startGlyph <= gi < startGlyph+len`, else `(0,false)` |
| TTCommon.ClassID1WrapLosesLastGlyph | fonts/truetype/table_common.go:50 | start 0xFFFF with one class: the code as written misses glyph 0xFFFF, the corrected lookup finds it |
| TTCommon.ClassID1AgreesBelowWrap | fonts/truetype/table_common.go:49-54 | when the span does not reach 2^16 the code as written and the corrected lookup agree |
| TTCommon.ClassID2Spec | fonts/truetype/table_common.go:106-135 | on ordered ranges: found exactly when a range holds the glyph, then that range's class, else `(0,false)` |
| TTCommon.Span | fonts/truetype/table_common.go:290-296 | `end - start + 1` in uint16: the true count when the range is proper and not the full 65536 |
| TTCommon.FullSpanWraps | fonts/truetype/table_common.go:137-143 | a range of all 65536 glyphs counts as 0 |
| TTCommon.GlyphSize | fonts/truetype/table_common.go:56-143 | format 1: the number of class values; format 2: the sum of the range spans |
| TTCommon.MaxID | fonts/truetype/table_common.go:58-66 | the largest class value (an element, at least every other), 0 for none |
| TTCommon.Extent | fonts/truetype/table_common.go:58-153 | one more than the largest class ID of the table, both formats |
| TTCommon.ClassIDBelowExtent | fonts/truetype/table_common.go:145-153 | every class ID the lookup answers is below `Extent` |
| TTCommon.ListIndexSpec | fonts/truetype/table_common.go:214-221 | on a sorted list: `(i,true)` exactly when `cl[i] == gi`, so injective; `(0,false)` otherwise |
| TTCommon.ListIndexBelowSize | fonts/truetype/table_common.go:214-223 | every index a list answers is below its size and points at the glyph |
| TTCommon.GdefCoverageIndices | fonts/truetype/table_gdef_test.go:49-58 | glyphs 380..383 get indices 0..3, and 379 and 384 are not covered |
| TTCommon.RangesIndexSpec | fonts/truetype/table_common.go:263-288 | on ordered ranges: `StartCoverage + (gi - Start)` for the range holding gi, `(0,false)` when none does |
| TTCommon.Size | fonts/truetype/table_common.go:223 | a list's size is its length; a range table's is the sum of the spans |
| TTCommon.SpanSumCounts | fonts/truetype/table_common.go:290-296 | without a full-range or reversed range, the span sum counts every glyph of every range |
| TTCommon.ReadWords | fonts/truetype/table_common.go:72-96 | the loop fills exactly the `num` big-endian words at the offset |
| TTCommon.CoverageListOf | fonts/truetype/table_common.go:227-243 | succeeds exactly when the count and 2·count bytes fit; returns the count's glyphs read big-endian |
| TTCommon.FetchCoverageList | fonts/truetype/table_common.go:227-243 | the parser loop computes `CoverageListOf` |
| TTCommon.CoverageRangesOf | fonts/truetype/table_common.go:303-321 | succeeds exactly when 6·count bytes fit; returns count records (start, end, startCoverage) |
| TTCommon.FetchCoverageRange | fonts/truetype/table_common.go:303-321 | the parser loop computes `CoverageRangesOf` |
| TTCommon.CoverageOf | fonts/truetype/table_common.go:193-208 | fails when `offset + 2` exceeds the buffer and on formats other than 1 and 2 |
| TTCommon.ParseCoverage | fonts/truetype/table_common.go:193-208 | the parser computes `CoverageOf` |
| TTCommon.ClassFormat1Of | fonts/truetype/table_common.go:72-96 | succeeds exactly when the header and count values (1 or 2 bytes each) fit; start glyph and count as read |
| TTCommon.ParseClassFormat1 | fonts/truetype/table_common.go:72-96 | the parser computes `ClassFormat1Of` |
| TTCommon.ClassFormat2Of | fonts/truetype/table_common.go:156-174 | succeeds exactly when 6·count bytes fit; returns count records (start, end, class) |
| TTCommon.ParseClassLookupFormat2 | fonts/truetype/table_common.go:156-174 | the parser computes `ClassFormat2Of` |
| TTCommon.ClassOf | fonts/truetype/table_common.go:29-42 | fails when `offset + 2` exceeds the buffer and on formats other than 1 and 2 |
| TTCommon.ParseClass | fonts/truetype/table_common.go:29-42 | the parser computes `ClassOf` |
| TTCommon.EncWordsRead | fonts/truetype/table_common.go:227-243 | words written big-endian read back, whatever surrounds them |
| TTCommon.CoverageListRoundTrip | fonts/truetype/table_common.go:193-243 | parsing an encoded format-1 coverage table gives its glyph list back |
| TTCommon.ClassFormat1RoundTrip | fonts/truetype/table_common.go:29-96 | parsing an encoded format-1 class table gives it back |
| TTGlyf.LocaOf | fonts/truetype/table_glyf.go:18-39 | fails exactly when the data is shorter than (n+1)·4 or (n+1)·2 bytes; else n+1 offsets |
| TTGlyf.ParseTableLoca | fonts/truetype/table_glyf.go:18-39 | the loops compute `LocaOf` |
| TTGlyf.LocaLongRoundTrip | fonts/truetype/table_glyf.go:18-39 | a long table written from offsets reads back as those offsets |
| TTGlyf.LocaShortRoundTrip | fonts/truetype/table_glyf.go:18-39 | a short table of halved offsets reads back as the doubled values |
| TTGlyf.GlyphInstructionOf | fonts/truetype/table_glyf.go:380-389 | fails exactly when fewer than 2+L bytes; the L instructions followed by the rest are `data[2:]` |
| TTGlyf.InstructionRoundTrip | fonts/truetype/table_glyf.go:380-389 | a length written before the instructions makes them read back, with the rest |
| TTGlyf.FlagStep | fonts/truetype/table_glyf.go:215-238 | one flag, with a repeat count clamped below the flags still missing |
| TTGlyf.FlagsOf | fonts/truetype/table_glyf.go:215-238 | every point gets a flag: exactly `count` flags |
| TTGlyf.FlagsWithoutRepeat | fonts/truetype/table_glyf.go:215-238 | without repeat bits the flags are the next `count` bytes |
| TTGlyf.FillRun | fonts/truetype/table_glyf.go:226-233 | a flag and its repeats are written at the position, the earlier flags kept |
| TTGlyf.ReadFlag | fonts/truetype/table_glyf.go:215-238 | one turn of the flag loop: fails as `FlagStep` does, else writes the run, never past `numPoints` |
| TTGlyf.ParseFlags | fonts/truetype/table_glyf.go:215-238 | the flag loop computes `FlagsOf` |
| TTGlyf.CoordOf | fonts/truetype/table_glyf.go:151-179 | one coordinate takes 1, 0 or 2 bytes by its flag; fails exactly when they are missing |
| TTGlyf.CoordsOf | fonts/truetype/table_glyf.go:151-179 | one value per flag; fails exactly when the data is shorter than the flags need |
| TTGlyf.ParseGlyphContourPoints | fonts/truetype/table_glyf.go:151-179 | the loop computes `CoordsOf` from 0 |
| TTGlyf.DeltasRoundTrip | fonts/truetype/table_glyf.go:151-179 | with long, non-repeating flags, decoding encoded int16 deltas gives the values back (wrap-around included) |
| TTGlyf.PointsOf | fonts/truetype/table_glyf.go:198-248 | exactly `numPoints` points |
| TTGlyf.ParsePoints | fonts/truetype/table_glyf.go:198-248 | the loops compute `PointsOf` |
| TTGlyf.SimpleTailOf | fonts/truetype/table_glyf.go:193-248 | last end point + 1 points, so every end point indexes a point |
| TTGlyf.SimpleGlyphOf | fonts/truetype/table_glyf.go:182-251 | endpoints are read as written; unsorted end points fail; last + 1 points; every end point indexes a point |
| TTGlyf.ParseSimpleGlyphData | fonts/truetype/table_glyf.go:182-251 | the parser computes `SimpleGlyphOf` |
| TTGlyf.HasUseMyMetrics | fonts/truetype/table_glyf.go:265-268 | exactly when flag bit 9 is set |
| TTGlyf.IsAnchored | fonts/truetype/table_glyf.go:272-275 | exactly when flag bit 1 (arguments are offsets) is clear |
| TTGlyf.IsScaledOffsets | fonts/truetype/table_glyf.go:277-283 | exactly when of bits 11 and 12 only bit 11 is set |
| TTGlyf.ComponentOf | fonts/truetype/table_glyf.go:318-370 | a record takes 4 bytes plus 4 or 2 argument bytes plus 0, 2, 4 or 8 scale bytes; fails exactly when they are missing |
| TTGlyf.ComponentsOf | fonts/truetype/table_glyf.go:318-370 | at least one component; all but the last carry MORE_COMPONENTS, the last does not |
| TTGlyf.CompositeOf | fonts/truetype/table_glyf.go:305-378 | a composite glyph has at least one component |
| TTGlyf.ReadComponent | fonts/truetype/table_glyf.go:318-370 | one turn of the do-while: an error is the glyph's error, else the loop goes on exactly while MORE_COMPONENTS is set |
| TTGlyf.ParseCompositeGlyphData | fonts/truetype/table_glyf.go:305-378 | the do-while and the instruction read compute `CompositeOf` |
| TTGlyf.OutlineOf | fonts/truetype/table_glyf.go:117-124 | simple exactly when the contour count is not negative; point counts agree with `pointNumbersCount` |
| TTGlyf.GlyphDataOf | fonts/truetype/table_glyf.go:109-125 | fails without offset+10 bytes; the four signed bounds are read; the contour count's sign picks simple or composite |
| TTGlyf.ParseOutline | fonts/truetype/table_glyf.go:117-124 | the dispatch computes `OutlineOf` |
| TTGlyf.ParseGlyphData | fonts/truetype/table_glyf.go:109-125 | the parser computes `GlyphDataOf` |
| TTGlyf.GlyphAt | fonts/truetype/table_glyf.go:45-48 | an empty 'loca' range gives an empty glyph |
| TTGlyf.Collect | fonts/truetype/table_glyf.go:44-55 | all values exactly when every entry succeeded |
| TTGlyf.CollectFirstError | fonts/truetype/table_glyf.go:49-52 | the first failing glyph decides the error |
| TTGlyf.GlyfOf | fonts/truetype/table_glyf.go:42-56 | `len(loca) - 1` entries |
| TTGlyf.GlyfEmptyEntry | fonts/truetype/table_glyf.go:45-48 | glyph i is empty whenever `loca[i] == loca[i+1]` |
| TTGlyf.ParseTableGlyf | fonts/truetype/table_glyf.go:42-56 | the loop computes `GlyfOf` |
| Language.CanonMap | language/language.go:8-17 | 'A'..'Z' go to the letter 32 code points on, lower-case letters, digits and '-' are kept, '_' and '@' go to '-', and the result is 0 exactly for every other character |
| Language.Canon | language/language.go:25-34 | no longer than the input, and made of `a-z`, `0-9` and '-' only |
| Language.NewLanguage | language/language.go:25-34 | the loop computes `Canon` |
| Language.CanonIdempotent | language/language.go:25-34 | canonicalising twice is canonicalising once |
| Language.CanonAppend | language/language.go:25-34 | canonicalisation distributes over concatenation |
| Language.CanonFixes | language/language.go:25-34 | a canonical tag is left as it is |
| Language.IndexOf | language/language.go:37 | the first index of the character, or -1 when absent |
| Language.LocaleDropsEncoding | language/language.go:36-41 | everything from the first '.' plays no part |
| Language.LocaleWithoutEncoding | language/language.go:36-41 | a locale without '.' is canonicalised whole |
| Language.LocaleTerritory | language/language.go:36-41 | `lang_TERR.codeset` gives `lang-terr` |
| Language.TableAgrees | language/language.go:8-17 | the 256-entry table, its 128 listed entries followed by zeros, holds at every index the character `CanonMap` gives |
| Language.AsWrittenAgrees | language/language.go:25-34 | the loop as written, indexing the table with each rune, succeeds exactly when every rune is below 256, and then yields `Canon` of the input |
| Language.WideCharPanics | language/language.go:27-28 | "en-Ā" panics as written, where stripping gives "en-" |
| OTTag.NewTag | harfbuzz/opentype_tag.go:13-19 | the four bytes packed big-endian read back |
| OTTag.TagFromBytes | harfbuzz/opentype_tag.go:13-19 | a tag is determined by its four bytes |
| OTTag.OldTagFromScript | harfbuzz/opentype_tag.go:23-49 | DFLT exactly for script 0 |
| OTTag.OldTagLowercases | harfbuzz/opentype_tag.go:48 | other ISO 15924 codes keep their letters with the first lower-cased (`| 0x20000000`) |
| OTTag.OldTagRoundTrip | harfbuzz/opentype_tag.go:23-68 | mapping back gives the script again, space-padded tags included, except Hiragana |
| OTTag.HiraganaIsKana | harfbuzz/opentype_tag.go:29-30 | Hiragana shares Katakana's tag |
| OTTag.NewTagFromScript | harfbuzz/opentype_tag.go:70-95 | a '…2' tag exactly for the ten scripts, DFLT for all others |
| OTTag.ThirdTag | harfbuzz/opentype_tag.go:145 | `tag | '3'` differs from the '…2' tag only in its last byte, which is '3' |
| OTTag.AllTagsFromScript | harfbuzz/opentype_tag.go:138-155 | the appends compute the tag list: '…3', '…2', old for nine Indic scripts; 'mym2', old for Myanmar; old otherwise |
| OTTag.AllTagsNotDefault | harfbuzz/opentype_tag.go:138-155 | empty exactly for script 0, and never DFLT |
| OTTag.Find | harfbuzz/opentype_tag.go:271-274 | the first occurrence of the prefix, or -1 when there is none |
| OTTag.ToggleDefaultBytes | harfbuzz/opentype_tag.go:297-300 | a tag equal to DFLT ignoring case has every byte's case toggled; others are kept |
| OTTag.ToggleDefaultInvolution | harfbuzz/opentype_tag.go:297-300 | toggling twice restores the tag |
| OTTag.ToggleDefaultTags | harfbuzz/opentype_tag.go:297-300 | "dflt" becomes DFLT and back |
| OTTag.AlnumRun | harfbuzz/opentype_tag.go:285-295 | the run of alphanumerics, at most 4 |
| OTTag.NameTag | harfbuzz/opentype_tag.go:285-295 | the normalised characters, padded with spaces |
| OTTag.HexRun | harfbuzz/opentype_tag.go:278-283 | the run of hexadecimal digits, at most 8 |
| OTTag.PrivateUseOf | harfbuzz/opentype_tag.go:269-302 | none without the prefix; else the subtag's tag (8 hex digits after '-', or up to 4 alphanumerics), DFLT toggled |
| OTTag.ReadHexTag | harfbuzz/opentype_tag.go:278-283 | the buffer holds the tag of 8 hex digits, or the read fails |
| OTTag.ReadNameTag | harfbuzz/opentype_tag.go:285-295 | the buffer holds the normalised, space-padded name, or fails when there is none |
| OTTag.ParsePrivateUseSubtag | harfbuzz/opentype_tag.go:269-302 | `(tag, true)` exactly for the tag `PrivateUseOf` describes, `(0, false)` otherwise |
| OTTag.AsWrittenAgrees | harfbuzz/opentype_tag.go:269-302 | off the hex form, the code as written returns that tag whenever it does not panic |
| OTTag.HexFormLost | harfbuzz/opentype_tag.go:278-283 | 8 hex digits spell a tag, but as written the hex form panics or finds nothing |
| OTTag.ShortNamePanics | harfbuzz/opentype_tag.go:286 | a name of fewer than 4 characters that ends the string panics as written, where it names a tag |
| OTTag.PrefixAtEndPanics | harfbuzz/opentype_tag.go:278 | a prefix at the end of the string panics as written |
| OTTag.ScanMeaning | harfbuzz/opentype_tag.go:311-331 | the limit is the '-' before the first singleton (else the length); the subtag is the suffix from the 'x' singleton |
| OTTag.ScanLanguage | harfbuzz/opentype_tag.go:311-331 | the scan loop computes `ScanOf` |
| OTTag.ScanAgrees | harfbuzz/opentype_tag.go:311-331 | whenever the scan as written does not panic it finds what `ScanOf` does |
| OTTag.SoleXPanics | harfbuzz/opentype_tag.go:311 | "x" makes the code as written read `lang_str[1]` |
| OTTag.TrailingSingletonPanics | harfbuzz/opentype_tag.go:316 | a tag ending in a one-character subtag ("en-a") reads one past the end as written |
| OTTag.TagsFromScriptAndLanguage | harfbuzz/opentype_tag.go:306-350 | empty language: all script tags, no language tags; else `-hbsc` overrides the script tags, `-hbot` the language tags, otherwise the language search |
| OTShaper.Buffer.constructor | harfbuzz/ot_shaper.go:286-295 | the shaping context's buffer, as parallel info and position arrays of equal length |
| OTShaper.VertCharFor | harfbuzz/ot_shaper.go:303-386 | unlisted code points unchanged; listed ones map into U+FE10..U+FE48 |
| OTShaper.VertCharForIdempotent | harfbuzz/ot_shaper.go:303-386 | mapping twice changes nothing more |
| OTShaper.VertCharForMoves | harfbuzz/ot_shaper.go:303-386 | a code point changes exactly when it is listed |
| OTShaper.SynthesizedClass | harfbuzz/ot_shaper.go:520-538 | Mark exactly for a non-spacing mark that is not default-ignorable, else BaseGlyph |
| OTShaper.SynthesizeGlyphClasses | harfbuzz/ot_shaper.go:520-538 | every glyph's properties become its synthesised class, nothing else changes |
| OTShaper.SynthesizedMarks | harfbuzz/ot_shaper.go:520-538 | after synthesis a glyph is a mark exactly when it is a visible non-spacing mark |
| OTShaper.ZeroedMark | harfbuzz/ot_shaper.go:586-599 | no advance; with adjustOffsets the offsets reduced by the old advances (int32), else kept |
| OTShaper.ZeroMarkWidthsByGdef | harfbuzz/ot_shaper.go:586-599 | marks are zeroed as `ZeroedMark` says; other glyphs keep their positions |
| OTShaper.NextCluster | harfbuzz/ot_shaper.go:688-710 | the end of the run of glyphs of the same cluster |
| OTShaper.AnyUnsafe | harfbuzz/ot_shaper.go:695-701 | exactly whether some glyph of the run is unsafe to break |
| OTShaper.MarkUnsafe | harfbuzz/ot_shaper.go:702-706 | the run's glyphs gain the flag, every other glyph unchanged |
| OTShaper.RunUnsafeWithin | harfbuzz/ot_shaper.go:688-710 | within a maximal run, a glyph's run is unsafe exactly when one of its glyphs is |
| OTShaper.PropagateFlags | harfbuzz/ot_shaper.go:688-710 | without the scratch flag nothing changes; otherwise every glyph of a cluster with an unsafe glyph becomes unsafe |
| OTShaper.UnsafeBit | harfbuzz/ot_shaper.go:688-710 | the flag is the low mask bit, and or-ing it in sets it |
| OTShaper.PropagatedUniform | harfbuzz/ot_shaper.go:688-710 | after propagation a cluster is all unsafe or all safe |
| OTShaper.PropagatedKeeps | harfbuzz/ot_shaper.go:688-710 | only the flag is added; the other bits and fields stay; unsafe glyphs unchanged |
| OTShaper.NextNonDigit | harfbuzz/ot_shaper.go:438-440 | the end of the run of decimal digits |
| OTShaper.PrevNonDigit | harfbuzz/ot_shaper.go:435-437 | the start of the run of decimal digits before a position |
| OTShaper.FractionedPlain | harfbuzz/ot_shaper.go:432-454 | a glyph that is neither a digit nor a slash keeps its mask |
| OTShaper.FractionedSlash | harfbuzz/ot_shaper.go:447 | a fraction slash gains the 'frac' mask only |
| OTShaper.FractionedNumerator | harfbuzz/ot_shaper.go:444-446 | a digit run ending at a slash gains the numerator mask |
| OTShaper.FractionedDenominator | harfbuzz/ot_shaper.go:448-450 | a digit run starting after a slash gains the denominator mask |
| OTShaper.DigitRun | harfbuzz/ot_shaper.go:435-440 | the maximal digit runs before and after the slash |
| OTShaper.OrMasks | harfbuzz/ot_shaper.go:444-450 | the mask is or-ed into the glyphs of the range, the rest unchanged |
| OTShaper.MarkFraction | harfbuzz/ot_shaper.go:433-452 | one slash: its runs and itself gain their masks, and the scan goes on after them |
| OTShaper.SetupMasksFraction | harfbuzz/ot_shaper.go:414-455 | no change without non-ASCII text or `hasFrac`; otherwise every glyph gets its fraction bits, pre/post swapped for backward text |
| OTShaper.Compile | harfbuzz/ot_shaper.go:59-124 | masks and most flags set from the planner; glyph-class fallback, kerx, GPOS and kern only ever switched on |
| OTShaper.NewShapePlan | harfbuzz/ot_shaper.go:157-168 | the decisions are consistent: kerx exactly with a kerx table, never with GPOS; zeroMarks implies no kerx; fallback marks imply adjustment; `hasFrac` is frac or numr and dnom |
| OTShaper.CompileIdempotent | harfbuzz/ot_shaper.go:59-124 | compiling a new plan again changes nothing |
| OTShaper.Positioner | harfbuzz/ot_shaper.go:178-190 | GPOS, else kerx, else kern: at most one applies |
| OTShaper.PositionerOfConsistent | harfbuzz/ot_shaper.go:178-190 | on a new plan kerx positions exactly with a kerx table; GPOS exactly with lookups, no morx, no disable, no kerx; kern otherwise when present |
| OTShaper.Substitutor | harfbuzz/ot_shaper.go:170-176 | morx substitutes exactly when the plan applies it |
| PangoUpright.UprightSorted | pango/context.go:619-718 | every range of the table is well formed and lies below every later range |
| PangoUpright.UprightAdjacent | pango/context.go:619-718 | neighbouring ranges are well formed and increasing |
| PangoUpright.UprightBelow | pango/context.go:619-718 | range i lies below every later range j |
| PangoContext.SearchUpright | pango/context.go:720-739 | starting at the last index: exactly whether the character is in a range; starting at the length (as written): panics exactly above the last range |
| PangoContext.IsUpright | pango/context.go:720-739 | true exactly when the character lies in some range of the table |
| PangoContext.WidthIter.constructor | pango/context.go:600-605 | the zero iterator |
| PangoContext.WidthIter.Reset | pango/context.go:607-612 | the iterator over the text slice, at its first maximal run |
| PangoContext.WidthIter.Next | pango/context.go:741-778 | the next run starts at the old end and is a maximal width run: non-empty unless the text is used up; uprightness uniform except ZWJ, after ZWJ and clinging characters |
| PangoContext.NextSerial | pango/context.go:212-217 | one more, wrapping in 64 bits, never 0 and never the old serial |
| PangoContext.Context.constructor | pango/context.go:59-80 | the serial starts at 1 |
| PangoContext.Context.ContextChanged | pango/context.go:212-217 | the serial becomes `NextSerial` of the old |
| PangoContext.GravityLevel | pango/context.go:1246-1254 | NORTH +1, EAST the even level at or above, WEST the odd; wrapping in int8; any other gravity unchanged |
| PangoContext.FirstWithFont | pango/context.go:1194-1203 | the first item that has a font, all before it nil |
| PangoContext.FillFonts | pango/context.go:1194-1203 | leading nil-font items get the font unless it is nil; other items unchanged |
| PangoContext.FillFontsNil | pango/context.go:1194-1203 | a nil font changes nothing |
| PangoContext.FillFontsIdempotent | pango/context.go:1194-1203 | filling twice is filling once |
| PangoContext.ItemFont | pango/context.go:1222-1230 | the given font, or the current item's when nil |
| PangoContext.ItemizeState.constructor | pango/context.go:1082-1152 | the state over the levels and width iterator, with no items and no current item |
| PangoContext.ItemizeState.UpdateEnd | pango/context.go:900-914 | the run end is the minimum of the five ends |
| PangoContext.ItemizeState.UpdateEmbeddingEnd | pango/context.go:827-836 | the level at the offset, extended over the characters of the same level up to the end; the changed flag set |
| PangoContext.ItemizeState.FillFont | pango/context.go:1194-1203 | the items become `FillFonts` of the old |
| PangoContext.ItemizeState.NewItem | pango/context.go:1222-1254 | offset `pos`, length 1, the font, and the level and gravity of the analysis |
| PangoContext.ItemizeState.AddCharacter | pango/context.go:1206-1276 | with a current item open (`state.item != nil`): joins it (length + 1, leading fonts filled) with no forced break and agreeing fonts, otherwise closes it at `pos` and prepends a new item; with none open: prepends a new item to the unchanged earlier items; afterwards an item is open |
| PangoContext.ItemizeState.FinishRun | pango/context.go:1014-1027 | the current item's length runs to the run end; a fontless one passes the space font to the leading items (so it gets that font when there is one); then no item is open |
| PangoEllipsize.NextCluster | pango/ellipsize.go:155-165 | one cluster on, false exactly at the line's end |
| PangoEllipsize.PrevCluster | pango/ellipsize.go:168-178 | one cluster back, false exactly at the line's start |
| PangoEllipsize.IterOfCluster | pango/ellipsize.go:155-178 | an iterator is fixed by its cluster, and runs follow clusters |
| PangoEllipsize.RunsWidthX | pango/ellipsize.go:99-121 | the first n runs are as wide as their clusters |
| PangoEllipsize.ExpandStartNearest | pango/ellipsize.go:396-399 | the gap starts at the nearest boundary at or before the centre |
| PangoEllipsize.ExpandEndNearest | pango/ellipsize.go:401-404 | the gap ends at the nearest boundary at or after the centre |
| PangoEllipsize.SpanStartNearest | pango/ellipsize.go:413-422 | the span before the gap reaches back to the nearest boundary with width, or the line's start |
| PangoEllipsize.SpanEndNearest | pango/ellipsize.go:424-432 | the span after the gap reaches on to the nearest boundary with width, or the line's end |
| PangoEllipsize.InitialRunIsFirst | pango/ellipsize.go:352-364 | the first run whose right edge passes the centre, or the last |
| PangoEllipsize.InitialClusterIsFirst | pango/ellipsize.go:368-387 | the first cluster of that run whose right edge passes the centre, or the run's last |
| PangoEllipsize.CenterIter | pango/ellipsize.go:352-387 | the iterator at the cluster holding the centre is valid |
| PangoEllipsize.EllipsisRun.constructor | pango/ellipsize.go:226-230 | an ellipsis run over its own glyph arrays, not yet flagged |
| PangoEllipsize.MinLevelIsMin | pango/ellipsize.go:474-479 | the lowest level of the runs, 127 for none |
| PangoEllipsize.KeptWholes | pango/ellipsize.go:486-525 | whole runs show the clusters from the first's start to the last's end |
| PangoEllipsize.RunListKept | pango/ellipsize.go:486-525 | the rebuilt line shows exactly the clusters outside the gap, in order, with the ellipsis between |
| PangoEllipsize.GrowOnceOneSide | pango/ellipsize.go:434-453 | fails exactly when neither span changes the width; otherwise exactly one side grows, strictly |
| PangoEllipsize.GrowUntil | pango/ellipsize.go:547-551 | the gap reached from `(s, e)` one `GrowOnce` at a time, stopping at the first that fits the goal or has no span left; it contains `(s, e)`, and is `(s, e)` when that already fits |
| PangoEllipsize.CenterOf | pango/ellipsize.go:337-344 | the gap centre is 0 at the start, half the line's width (truncated) in the middle, the full width at the end, and stays 0 without a mode |
| PangoEllipsize.FindRun | pango/ellipsize.go:352-364 | the run loop with back-off finds `InitialRun` and its x |
| PangoEllipsize.FindCluster | pango/ellipsize.go:368-392 | the cluster loop with back-off finds `CenterIter`, its x and width |
| PangoEllipsize.WidenStart | pango/ellipsize.go:396-399 | computes `ExpandStart` and its x |
| PangoEllipsize.WidenEnd | pango/ellipsize.go:401-404 | computes `ExpandEnd` and its x |
| PangoEllipsize.StepBack | pango/ellipsize.go:413-422 | the do-while computes `SpanStart` and its x |
| PangoEllipsize.StepOn | pango/ellipsize.go:424-432 | the do-while computes `SpanEnd` and its x |
| PangoEllipsize.ElidedLevel | pango/ellipsize.go:474-479 | the loop computes the lowest level of the elided runs |
| PangoEllipsize.InitialSpan | pango/ellipsize.go:352-406 | the gap from the centre cluster widened to both boundaries, with its x positions and ellipsis |
| PangoEllipsize.EllipsizeState.constructor | pango/ellipsize.go:99-121 | total width is the sum of the run widths; each start offset is StartIndex plus the earlier runs' lengths |
| PangoEllipsize.EllipsizeState.CurrentWidthKept | pango/ellipsize.go:528-530 | `total - (gapEndX - gapStartX) + ellipsis` is the width of the clusters kept plus the ellipsis |
| PangoEllipsize.EllipsizeState.FindInitialSpan | pango/ellipsize.go:336-407 | the centre is 0, total/2 or total by mode; the gap is the centre cluster widened to the boundaries |
| PangoEllipsize.EllipsizeState.RemoveOneSpan | pango/ellipsize.go:411-454 | false exactly when neither side can grow; otherwise the gap `GrowOnce` chooses |
| PangoEllipsize.EllipsizeState.Shrink | pango/ellipsize.go:547-551 | the gap it stops at is `GrowUntil` of the gap it starts from: the first one, one span at a time, at which the line fits or no span is left |
| PangoEllipsize.EllipsizeState.FixupEllipsisRun | pango/ellipsize.go:457-483 | one cluster from the first glyph; the last glyph gains the extra width; the item covers the elided characters at the lowest elided level |
| PangoEllipsize.EllipsizeState.GetRunList | pango/ellipsize.go:486-525 | the runs before, the partial start run, the ellipsis, the partial end run, the runs after |
| PangoEllipsize.Ellipsize | pango/ellipsize.go:535-557 | false, runs unchanged, when the mode is NONE, the goal negative or the line fits; otherwise the centre is `CenterOf` the mode, the gap is `GrowUntil` of the centre cluster widened to the boundaries, the runs are rebuilt around it, and the ellipsis run covers the elided characters as one cluster at the lowest elided level with the extra `max(goal - current, 0)` on its last glyph |
| PangoEllipsize.EllipsizeState.Elide | pango/ellipsize.go:547-557 | the gap grows to `GrowUntil` of the initial one, the ellipsis run is fixed up with the room left below the goal, and the run list is rebuilt around the gap |

## Left out

- Commented-out instructions of the Graphite machine: they are C++ reference text in comments, not live code.
- `graphite/logging.go`: debug tracing to files with float formatting.
- The positioning loop of `positionSlots`, `slot.finalise` and glyph metrics: float geometry in code that is not part of this model; the empty case and the reverse bracket are modelled.
- Face lookups (`getGlyph`, glyph attributes, the mirror attributes): parameters of the segment.
- `setGlyph` (slot.go) is not part of this model: it is taken to set the glyph and clear the cached bidi class to -1.
- The segment's initial `passBits`: `newSegment` leaves it at zero and the code that later sets it is not part of this model, so it is a constructor parameter.
- GraphiteStack.Stack.PushShortU, GraphiteStack.Stack.PushLong: both read an undeclared `param`, and `push_long` is declared without parameters; the model gives both an operand slice `dp` and reads `param` as `dp`.
- `fonts/truetype/font.go` and `fonts/fonts.go`: file seeking, decompression, table dispatch and interface declarations.
- `fonts.GlyphIndex` is defined in a file that is not part of this model (`fonts/fonts.go` declares only `GID uint32`); the model takes it to be `uint16`, the width of the glyph indices these tables store, and the class-definition wrap-around finding rests on that width.
- Float code of 'glyf' (point transforms, extents, F2Dot14 scales): component scales are kept as raw bytes.
- `parseUint16s` (outside the table file) is modelled by its behaviour: `num` words or a length error.
- `pango/fontset.go` and the font cache: shared caches under mutexes.
- The itemization driver, the attribute, script and emoji iterators, font lookup and `DefaultLanguage` (environment variables): only the state updates named above are modelled, with the iterators' ends as fields.
- PangoContext.ItemizeState.FinishRun: the font for a space (`get_font(' ')`) is a parameter, and the warning logged when there is none is left out.
- `shapeEllipsis`, `itemizeText` and `updateEllipsisShape`: they call the shaper; the ellipsis width is a parameter, one width per cluster the gap may start at.
- The glyph item iterator of the ellipsizer: a line is runs over consecutive clusters, each cluster with its width, boundary flags and character range; every run holds a cluster.
- The ellipsized run list is built front to back as pieces (whole runs, the head and tail of a split run, the ellipsis) rather than by splitting Go slices in place.
- Glyph-unit (`int32`) overflow of widths in the ellipsizer is not modelled: widths are integers.
- `hb_ot_tags_from_language` and its language tables are outside this model: the parameter `fromLanguage` stands for them.
- `otRotateChars`, the feature map, `collectFeatures` and the shaping pipeline are not modelled: they call into code outside this model.
- OTShaper.SetupMasksFraction: the unsafe-to-break mark over each fraction is not modelled; the model assumes a fraction slash is never a decimal digit (U+2044 is a math symbol).
- OTShaper.Compile: only the decisions; the feature map lookups are planner fields. The second kerx test is unreachable and not modelled (see its doc comment).
- The GlyphProps, mask and scratch-flag constants of the buffer are stated as named bit values; the GDEF table itself is not modelled.
- Script constants are their ISO 15924 packed tags; the script table file is outside this model.
- TTGlyf.ParseTableGlyf: requires a non-empty 'loca'; Go's `make` with length -1 panics on an empty one, and `parseTableLoca` always returns n+1 offsets.
- PangoContext.ItemizeState.UpdateEmbeddingEnd: requires the embedding levels to cover every offset the loop reads; Go leaves this to its caller, which sizes the levels by the text.
- Pango gravity is an enumeration, and bidi levels are `int8` with explicit wrap.
- `AFIsEllipsis` is a boolean field of the ellipsis run.
- The ellipsis item's `WidthChanged` bookkeeping is not modelled.

## Findings

| source | as written | input that shows it | evidently intended | confidence | as-written member | corrected member |
|---|---|---|---|---|---|---|
| harfbuzz/opentype_tag.go:278-283 | `hex.Decode` into the 4-byte buffer is compared with 8, but it returns the number of bytes decoded (at most 4) | a subtag "x-hbsc-64666c74" | the 8 hex digits spell the tag 'dflt' toggled to DFLT | not executed | OTTag.HexFormLost | OTTag.ParsePrivateUseSubtag |
| harfbuzz/opentype_tag.go:278-286 | the character after the prefix, and the 4 characters of a name, are read without a bounds check | "x-hbscab" (name of 2 characters at the end), or "x-hbsc" (prefix at the end) | a short name ends at the end of the string; a bare prefix gives no tag | not executed | OTTag.ShortNamePanics | OTTag.ParsePrivateUseSubtag |
| harfbuzz/opentype_tag.go:311-316 | `lang_str[1]` and `lang_str[s+1]` are read without a bounds check | "x", or "en-a" | the scan stops at the end of the tag | not executed | OTTag.TrailingSingletonPanics | OTTag.ScanLanguage |
| fonts/truetype/table_common.go:50 | `startGlyph + len(classIDs)` is computed in 16 bits and wraps | start glyph 0xFFFF, class values [7], glyph 0xFFFF | glyph 0xFFFF has class 7 | not executed; rests on a 16-bit `fonts.GlyphIndex` | TTCommon.ClassID1WrapLosesLastGlyph | TTCommon.ClassID1 |
| pango/context.go:723 | the search's upper index starts at `len(upright)`, so the middle index reaches it | character 0x10FFFE (above the last range) | the search finds nothing and answers false | not executed | PangoContext.SearchUpright | PangoContext.IsUpright |
| language/language.go:27-28 | each rune indexes the 256-entry table, so a rune from U+0100 on is out of range | "en-Ā" | the character is stripped, giving "en-" | not executed | Language.WideCharPanics | Language.NewLanguage |

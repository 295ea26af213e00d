// Helpers of Pango's itemizer: the table of upright characters and the
// search over it, the run splitter that groups text by uprightness, the
// context's change serial, and the bookkeeping that builds the item list.

module PangoContext {
  import opened Common

  import opened PangoUpright

  /**
   * `isUpright`, the binary search over the table, with the upper index
   * starting at `ed0`. The source starts it at the table length, where the
   * middle index reaches the end of the table once `ch` lies above the last
   * range, and the read there panics; starting at the last index the search
   * answers by range membership.
   */
  method SearchUpright(ch: int, ed0: int) returns (r: Outcome<bool>)
    requires ed0 == UprightCount - 1 || ed0 == UprightCount
    ensures r.Panic? <==> ed0 == UprightCount && ch > Upright(UprightCount - 1).1
    ensures r.Done? ==> (r.value <==> InUpright(ch))
  {
    UprightSorted();
    var st, ed := 0, ed0;
    while st <= ed
      invariant 0 <= st <= UprightCount && st <= ed + 1 && ed <= ed0
      invariant forall j :: 0 <= j < UprightCount && Upright(j).0 <= ch <= Upright(j).1 ==> st <= j <= ed
      invariant st > 0 ==> ch > Upright(st - 1).1
      invariant ed0 == UprightCount && ch > Upright(UprightCount - 1).1 ==> ed == UprightCount
      decreases ed - st
    {
      var mid := (st + ed) / 2;
      if mid >= UprightCount {
        return Panic;
      }
      if Upright(mid).0 <= ch && ch <= Upright(mid).1 {
        return Done(true);
      } else if Upright(mid).0 <= ch {
        st := mid + 1;
      } else {
        ed := mid - 1;
      }
    }
    return Done(false);
  }

  /** `isUpright` with the search bounded by the last index of the table. */
  method IsUpright(ch: int) returns (r: bool)
    ensures r <==> InUpright(ch)
  {
    var o := SearchUpright(ch, UprightCount - 1);
    r := o.value;
  }

  // ---------------------------------------------------------------- width runs

  const ZeroWidthJoiner: int := 0x200D

  /** Variation selectors 15 and 16, tag characters and emoji modifiers. */
  predicate Clinging(ch: int)
  {
    ch == 0xFE0E || ch == 0xFE0F || (0xE0020 <= ch <= 0xE007F) || (0x1F3FB <= ch <= 0x1F3FF)
  }

  /**
   * Character `q` of a run starting at `start` never ends the run: it is a
   * zero width joiner, follows one inside the run, or is a clinging
   * character.
   */
  predicate Exempt(text: seq<int>, start: int, q: int)
    requires 0 <= start <= q < |text|
  {
    text[q] == ZeroWidthJoiner || (start < q && text[q - 1] == ZeroWidthJoiner) || Clinging(text[q])
  }

  /**
   * `start` to `end` is a maximal width run of the text up to `textEnd`: it
   * is not empty unless the text is used up, `upright` is the uprightness of
   * its first character, every character of it that is not exempt agrees
   * with that, and the character after it is not exempt and disagrees.
   */
  ghost predicate IsWidthRun(text: seq<int>, textEnd: int, start: int, end: int, upright: bool)
  {
    && 0 <= start <= end <= textEnd <= |text|
    && (start < textEnd ==> start < end && (upright <==> InUpright(text[start])))
    && (forall q :: start <= q < end ==> Exempt(text, start, q) || (InUpright(text[q]) <==> upright))
    && (end < textEnd ==> !Exempt(text, start, end) && (InUpright(text[end]) <==> !upright))
  }

  /** `WidthIter`: splits text into runs of upright and of sideways characters. */
  class WidthIter {
    var text: seq<int>
    var textEnd: int
    var start: int
    var end: int
    var upright: bool

    /** The zero value. */
    constructor ()
      ensures text == [] && textEnd == 0 && start == 0 && end == 0 && !upright
    {
      text, textEnd, start, end, upright := [], 0, 0, 0, false;
    }

    /** `reset`: the iterator over `length` characters from `textStart`, at its first run. */
    method Reset(text: seq<int>, textStart: int, length: int)
      requires 0 <= textStart && 0 <= length && textStart + length <= |text|
      modifies this
      ensures this.text == text && textEnd == textStart + length && start == textStart
      ensures IsWidthRun(text, textEnd, start, end, upright)
    {
      this.text, textEnd := text, textStart + length;
      start, end := textStart, textStart;
      Next();
    }

    /** `next`: the run that starts where the previous one ended. */
    method Next()
      requires 0 <= end <= textEnd <= |text|
      modifies this
      ensures text == old(text) && textEnd == old(textEnd) && start == old(end)
      ensures start == textEnd ==> upright == old(upright)
      ensures IsWidthRun(text, textEnd, start, end, upright)
    {
      var metJoiner := false;
      start := end;
      if end < textEnd {
        upright := IsUpright(text[end]);
      }
      while end < textEnd
        invariant text == old(text) && textEnd == old(textEnd) && start == old(end)
        invariant 0 <= start <= end <= textEnd <= |text|
        invariant metJoiner <==> start < end && text[end - 1] == ZeroWidthJoiner
        invariant start < textEnd ==> (upright <==> InUpright(text[start]))
        invariant forall q :: start <= q < end ==> Exempt(text, start, q) || (InUpright(text[q]) <==> upright)
        invariant start == textEnd ==> upright == old(upright)
      {
        var ch := text[end];
        if ch == ZeroWidthJoiner {
          end, metJoiner := end + 1, true;
          continue;
        }
        if metJoiner {
          end, metJoiner := end + 1, false;
          continue;
        }
        if Clinging(ch) {
          end := end + 1;
          continue;
        }
        var up := IsUpright(ch);
        if up != upright {
          break;
        }
        end := end + 1;
      }
    }
  }

  // ---------------------------------------------------------------- context serial

  /**
   * The serial after a change of the context: one more, wrapping around
   * Go's 64-bit `uint`, and stepping over 0.
   */
  function NextSerial(serial: uint64): (r: uint64)
    ensures r != 0 && r != serial
    ensures serial as int < TWO64 - 1 ==> r as int == serial as int + 1
    ensures serial as int == TWO64 - 1 ==> r == 1
  {
    var s := (serial as int + 1) % TWO64;
    if s == 0 then 1 else s as uint64
  }

  /** The part of `Context` that records its changes. */
  class Context {
    var serial: uint64

    /** `NewContext` starts the serial at 1. */
    constructor ()
      ensures serial == 1
    {
      serial := 1;
    }

    /** `contextChanged`: a new serial, never 0 and never the old one. */
    method ContextChanged()
      modifies this
      ensures serial == NextSerial(old(serial))
    {
      serial := ((serial as int + 1) % TWO64) as uint64;
      if serial == 0 {
        serial := serial + 1;
      }
    }
  }

  // ---------------------------------------------------------------- items

  /** The directions of text relative to the page. */
  datatype Gravity = South | East | North | West | Auto

  /** A font, by identity. */
  type Font = nat

  /** A bidirectional embedding level (a signed byte). */
  type Level = int8

  /** An item of the itemizer's result: a run of text and its analysis. */
  datatype Item = Item(
    offset: int, length: int,
    font: Option<Font>, level: Level, gravity: Gravity, centeredBaseline: bool,
    script: int, language: string)

  /**
   * The level of a new item: one up for NORTH, up to an even level for
   * EAST (`(level + 1) &^ 1`) and to an odd one for WEST (`level | 1`), as
   * it is for other gravities. The increment wraps in the signed byte.
   */
  function GravityLevel(level: Level, gravity: Gravity): (r: Level)
    ensures gravity == North && level < 127 ==> r as int == level as int + 1
    ensures gravity == East ==> r as int % 2 == 0
    ensures gravity == East && level < 127 ==> level <= r && r as int <= level as int + 1
    ensures gravity == West ==> r as int % 2 == 1 && level <= r && r as int <= level as int + 1
    ensures (gravity == North || gravity == East) && level == 127 ==> r == -128
    ensures gravity != North && gravity != East && gravity != West ==> r == level
  {
    match gravity
    case North => ToInt8(level as int + 1)
    case East => ClearLowBit(ToInt8(level as int + 1))
    case West => SetLowBit(level)
    case _ => level
  }

  /** `x &^ 1` on a two's complement byte. */
  function ClearLowBit(x: Level): Level
  {
    (x as int - x as int % 2) as Level
  }

  /** `x | 1` on a two's complement byte. */
  function SetLowBit(x: Level): Level
  {
    if x as int % 2 == 0 then x + 1 else x
  }

  /** The index of the first item that has a font, or the number of items. */
  function FirstWithFont(items: seq<Item>): (n: nat)
    ensures n <= |items|
    ensures forall k :: 0 <= k < n ==> items[k].font == None
    ensures n < |items| ==> items[n].font != None
  {
    if items == [] || items[0].font != None then 0 else 1 + FirstWithFont(items[1..])
  }

  /**
   * The items after `fillFont(font)`: each item before the first one with a
   * font gets `font`, unless that is nil; no other item changes.
   */
  function FillFonts(items: seq<Item>, font: Option<Font>): (r: seq<Item>)
    ensures |r| == |items|
    ensures forall k :: 0 <= k < |items| ==>
      r[k] == if k < FirstWithFont(items) && font.Some? then items[k].(font := font) else items[k]
  {
    if items == [] || items[0].font != None then items
    else [if font.Some? then items[0].(font := font) else items[0]] + FillFonts(items[1..], font)
  }

  /** A nil font leaves the items as they are. */
  lemma FillFontsNil(items: seq<Item>)
    ensures FillFonts(items, None) == items
  {
  }

  /** Filling again with the same font changes nothing more. */
  lemma FillFontsIdempotent(items: seq<Item>, font: Option<Font>)
    ensures FillFonts(FillFonts(items, font), font) == FillFonts(items, font)
  {
  }

  /** A font on either side, or the same font, lets the current item go on. */
  predicate SameFont(current: Option<Font>, font: Option<Font>)
  {
    current == None || font == None || current == font
  }

  /** The font a new item gets: a nil font takes over the current item's font. */
  function ItemFont(current: Option<Font>, font: Option<Font>): (r: Option<Font>)
    ensures font.Some? ==> r == font
    ensures font == None ==> r == current
  {
    if current.Some? && font == None then current else font
  }

  /**
   * The part of `ItemizeState` the run bookkeeping and the item building
   * use; the iterators over attributes, scripts and emoji are present only
   * through the ends of their current runs.
   */
  class ItemizeState {
    var end: int
    var runEnd: int
    var embeddingLevels: seq<Level>
    var embeddingEndOffset: int
    var embeddingEnd: int
    var embedding: Level
    var attrEnd: int
    var scriptEnd: int
    var widthIter: WidthIter
    var emojiEnd: int
    var changed: bv8
    var result: seq<Item>
    var resolvedGravity: Gravity
    var centeredBaseline: bool
    var script: int
    var derivedLang: string
    var copyExtraAttrs: bool
    /** Whether a current item is open (Go's `state.item != nil`); it is `result[0]`. */
    var hasItem: bool

    constructor (embeddingLevels: seq<Level>, widthIter: WidthIter)
      ensures this.embeddingLevels == embeddingLevels && this.widthIter == widthIter && result == [] && !hasItem
    {
      this.embeddingLevels, this.widthIter, result, hasItem := embeddingLevels, widthIter, [], false;
    }

    /** `updateEnd`: the current run ends where the first of the runs it is made of ends. */
    method UpdateEnd()
      modifies this`runEnd
      ensures runEnd <= embeddingEnd && runEnd <= attrEnd && runEnd <= scriptEnd
      ensures runEnd <= widthIter.end && runEnd <= emojiEnd
      ensures runEnd == embeddingEnd || runEnd == attrEnd || runEnd == scriptEnd || runEnd == widthIter.end || runEnd == emojiEnd
    {
      runEnd := embeddingEnd;
      if attrEnd < runEnd {
        runEnd := attrEnd;
      }
      if scriptEnd < runEnd {
        runEnd := scriptEnd;
      }
      if widthIter.end < runEnd {
        runEnd := widthIter.end;
      }
      if emojiEnd < runEnd {
        runEnd := emojiEnd;
      }
    }

    /**
     * `update_embedding_end`: the embedding level is the one at the offset,
     * and the embedding run extends over the characters of that same level,
     * up to `end`.
     */
    method UpdateEmbeddingEnd()
      requires 0 <= embeddingEndOffset < |embeddingLevels|
      requires embeddingEndOffset + (end - embeddingEnd) <= |embeddingLevels|
      modifies this`embedding, this`embeddingEndOffset, this`embeddingEnd, this`changed
      ensures embedding == embeddingLevels[old(embeddingEndOffset)]
      ensures embeddingEndOffset - old(embeddingEndOffset) == embeddingEnd - old(embeddingEnd) >= 0
      ensures embeddingEnd == old(embeddingEnd) || embeddingEnd <= end
      ensures forall k :: old(embeddingEndOffset) <= k < embeddingEndOffset ==> embeddingLevels[k] == embedding
      ensures embeddingEnd < end ==> embeddingEndOffset < |embeddingLevels| && embeddingLevels[embeddingEndOffset] != embedding
      ensures changed == old(changed) | EmbeddingChanged
    {
      embedding := embeddingLevels[embeddingEndOffset];
      while embeddingEnd < end && embeddingLevels[embeddingEndOffset] == embedding
        invariant old(embeddingEndOffset) <= embeddingEndOffset
        invariant embeddingEndOffset - old(embeddingEndOffset) == embeddingEnd - old(embeddingEnd)
        invariant embeddingEnd == old(embeddingEnd) || embeddingEnd <= end
        invariant embeddingEnd < end ==> embeddingEndOffset < |embeddingLevels|
        invariant forall k :: old(embeddingEndOffset) <= k < embeddingEndOffset ==> embeddingLevels[k] == embedding
        invariant embedding == embeddingLevels[old(embeddingEndOffset)] && changed == old(changed)
        decreases end - embeddingEnd
      {
        embeddingEndOffset, embeddingEnd := embeddingEndOffset + 1, embeddingEnd + 1;
      }
      changed := changed | EmbeddingChanged;
    }

    /** `fillFont`: the leading items without a font get `font`. */
    method FillFont(font: Option<Font>)
      modifies this`result
      ensures result == FillFonts(old(result), font)
    {
      var i := 0;
      while i < |result|
        invariant 0 <= i <= |result| == |old(result)|
        invariant forall k :: 0 <= k < i ==> old(result)[k].font == None
        invariant forall k :: 0 <= k < i ==> result[k] == if font.Some? then old(result)[k].(font := font) else old(result)[k]
        invariant forall k :: i <= k < |result| ==> result[k] == old(result)[k]
      {
        if result[i].font != None {
          break;
        }
        if font.Some? {
          result := result[i := result[i].(font := font)];
        }
        i := i + 1;
      }
      assert i == FirstWithFont(old(result));
    }

    /** The item `addCharacter` starts at `pos`, with the state's analysis. */
    function NewItem(pos: int, font: Option<Font>): (it: Item)
      reads this
      ensures it.offset == pos && it.length == 1 && it.font == font
      ensures it.level == GravityLevel(embedding, resolvedGravity) && it.gravity == resolvedGravity
    {
      Item(pos, 1, font, GravityLevel(embedding, resolvedGravity), resolvedGravity, centeredBaseline, script, derivedLang)
    }

    /**
     * `addCharacter`: with a current item open, the character at `pos` joins
     * it when no break is forced and the fonts agree, a nil one agreeing with
     * any; otherwise the current item is closed at `pos` and a new item is put
     * in front. A current item without a font first passes `font` to the
     * leading items. With no current item (the start of a run), a new item is
     * put in front of the earlier runs' items, which do not change.
     */
    method AddCharacter(font: Option<Font>, forceBreak: bool, pos: int)
      requires hasItem ==> result != []
      modifies this`result, this`copyExtraAttrs, this`hasItem
      ensures hasItem && result != []
      ensures old(hasItem) && !forceBreak && SameFont(old(result)[0].font, font) ==>
        var filled := FillFonts(old(result), font);
        result == filled[0 := filled[0].(length := filled[0].length + 1)] && copyExtraAttrs == old(copyExtraAttrs)
      ensures old(hasItem) && (forceBreak || !SameFont(old(result)[0].font, font)) ==>
        var filled := FillFonts(old(result), font);
        result == [NewItem(pos, ItemFont(old(result)[0].font, font))] + filled[0 := filled[0].(length := pos - filled[0].offset)]
        && copyExtraAttrs
      ensures !old(hasItem) ==> result == [NewItem(pos, font)] + old(result) && copyExtraAttrs
    {
      var font := font;
      var open := hasItem;
      hasItem := true;
      if open {
        if result[0].font == None && font.Some? {
          FillFont(font);
        } else if result[0].font.Some? && font == None {
          font := result[0].font;
        }
        if !forceBreak && result[0].font == font {
          result := result[0 := result[0].(length := result[0].length + 1)];
          return;
        }
        result := result[0 := result[0].(length := pos - result[0].offset)];
      }
      result := [NewItem(pos, font)] + result;
      copyExtraAttrs := true;
    }

    /**
     * The end of `processRun`: the current item is closed at the run's end;
     * if it has no font, the font for a space passes to the leading items;
     * then no item is current.
     */
    method FinishRun(spaceFont: Option<Font>)
      requires hasItem && result != []
      modifies this`result, this`hasItem
      ensures !hasItem && |result| == |old(result)|
      ensures result[0].offset == old(result)[0].offset && result[0].length == runEnd - old(result)[0].offset
      ensures old(result)[0].font.Some? ==> result == old(result)[0 := old(result)[0].(length := runEnd - old(result)[0].offset)]
      ensures old(result)[0].font == None ==>
        result == FillFonts(old(result)[0 := old(result)[0].(length := runEnd - old(result)[0].offset)], spaceFont)
      ensures old(result)[0].font == None && spaceFont.Some? ==> result[0].font == spaceFont
    {
      result := result[0 := result[0].(length := runEnd - result[0].offset)];
      if result[0].font == None {
        FillFont(spaceFont);
      }
      hasItem := false;
    }
  }

  /** The flag `update_embedding_end` raises among the `ChangedFlags`. */
  const EmbeddingChanged: bv8 := 0x1
}

// A Graphite segment: the doubly-linked list of glyph slots built while a
// string is shaped, with its per-character records, its pass-skip mask and
// its text direction.  Slots live in an arena (`slots`) and link to each
// other by index, NIL standing for Go's nil pointer.  The list order is
// tracked by the ghost sequence `order`; `Valid()` ties it to the links.

module GraphiteSegment {
  import opened Common
  import opened SlotOrder
  import opened SlotLinks

  /** Bidi class of diacritics: `reverseSlots` keeps these behind their base. */
  const MarkClass: int := 16

  /** Bit of `dir` that `reverseSlots` toggles. */
  const ReverseFlag: bv64 := 64

  /** A slot's own data; its links and bidi cache are held by the segment (see `Segment`). */
  datatype Slot = Slot(
    glyph: uint16,
    original: int, before: int, after: int,
    parent: int,          // attachment parent, NIL when none
    index: nat)           // index into the collision table

  datatype CharInfo = CharInfo(before: int, after: int, ch: int, breakWeight: int16, flags: byte)

  /** Collision records are not modelled beyond their identity. */
  datatype SlotCollision = SlotCollision(id: nat)

  // ---------------------------------------------------------------------
  // Direction bits
  // ---------------------------------------------------------------------

  /** `currdir()`: bit 6 of `dir` (the reverse flag) differs from bit 0. */
  function CurrDir(dir: bv64): (r: bool)
    ensures r <==> ((dir & 64 == 0) != (dir & 1 == 0))
  {
    ((dir >> 6) ^ dir) & 1 != 0
  }

  /** Toggling the reverse flag flips `currdir()`. */
  lemma ToggleFlipsCurrDir(dir: bv64)
    ensures CurrDir(dir ^ ReverseFlag) == !CurrDir(dir)
    ensures (dir ^ ReverseFlag) ^ ReverseFlag == dir
  {
  }

  /** Go's `uint32(v)` of an int16 attribute: sign-extended into 32 bits. */
  function AttrBits(v: int16): (r: uint32)
    ensures (r as int - v as int) % TWO32 == 0
  {
    if v < 0 then (v as int + TWO32) as uint32 else v as uint32
  }

  /** Go's `x << 16` on a uint32: the high half is shifted out. */
  function Shl16(x: uint32): (r: uint32)
    ensures r as int % TWO16 == 0
  {
    (x as int % TWO16 * TWO16) as uint32
  }

  /** Root of a slot's attachment tree, following `parent` links. */
  function Root(sl: seq<Slot>, s: int, ghost rank: seq<nat>): (r: int)
    requires |rank| == |sl| && 0 <= s < |sl|
    requires ParentsRanked(sl, rank)
    ensures 0 <= r < |sl| && sl[r].parent == NIL
    decreases rank[s]
  {
    if sl[s].parent == NIL then s else Root(sl, sl[s].parent, rank)
  }

  /** Every parent link goes to a slot of strictly lower rank, so chains end. */
  ghost predicate ParentsRanked(sl: seq<Slot>, rank: seq<nat>)
  {
    |rank| == |sl| &&
    forall s :: 0 <= s < |sl| && sl[s].parent != NIL ==>
      0 <= sl[s].parent < |sl| && rank[sl[s].parent] < rank[s]
  }

  /** `findRoot`: walks up `parent` until a slot without one. */
  method FindRoot(sl: seq<Slot>, s: int, ghost rank: seq<nat>) returns (r: int)
    requires 0 <= s < |sl| && ParentsRanked(sl, rank)
    ensures r == Root(sl, s, rank)
    ensures 0 <= r < |sl| && sl[r].parent == NIL
  {
    r := s;
    while sl[r].parent != NIL
      invariant 0 <= r < |sl| && Root(sl, r, rank) == Root(sl, s, rank)
      decreases rank[r]
    {
      r := sl[r].parent;
    }
  }


  // ---------------------------------------------------------------------
  // The segment
  // ---------------------------------------------------------------------


  /**
   * A segment.  Slot `s` of the arena keeps its own data in `slots[s]`, its
   * links in `next[s]` and `prev[s]`, and its cached bidi class in
   * `bidiCls[s]` (-1 while not looked up): the Go slot record, held column
   * by column.
   */
  class Segment {
    // The face and the selected Silf subtable, as far as the segment reads them.
    const glyphExists: uint16 -> bool
    const glyphAttr: (uint16, uint16) -> int16
    const attrBreakWeight: uint16
    const attrSkipPasses: uint16
    const attrDirectionality: uint16
    const numPasses: nat

    var slots: seq<Slot>
    var next: seq<int>
    var prev: seq<int>
    var bidiCls: seq<int8>
    var first: int
    var last: int
    var charinfo: seq<CharInfo>
    var collisions: seq<SlotCollision>
    var dir: bv64
    var passBits: uint32
    ghost var order: seq<int>

    /** The slots form one doubly-linked list from `first` to `last`, in the order `order`. */
    ghost predicate Valid()
      reads this`slots, this`next, this`prev, this`bidiCls, this`order, this`first, this`last
    {
      LinksOk(|slots|, next, prev, bidiCls, order, first, last)
    }

    /**
     * Link columns and a bidi cache for `n` slots, and a list from `f` to `l`
     * that holds every slot once, in the order `L`.
     */
    ghost predicate LinksOk(n: int, nx: seq<int>, pv: seq<int>, cache: seq<int8>, L: seq<int>, f: int, l: int)
    {
      |nx| == n && |pv| == n && |cache| == n && |L| == n &&
      Distinct(L) && (forall x :: 0 <= x < n ==> x in L) &&
      IsList(nx, pv, L, f, l)
    }

    /** The bidi class of a slot: the cached one, or the face's directionality attribute. */
    function ClassOf(sl: Slot, cached: int8): int8
    {
      if cached != -1 then cached else ToInt8(glyphAttr(sl.glyph, attrDirectionality) as int)
    }

    /** The slots whose bidi class, read through the cache, is the diacritic class. */
    ghost function MarksOf(sl: seq<Slot>, cache: seq<int8>): set<int>
      requires |cache| == |sl|
    {
      set x | 0 <= x < |sl| && ClassOf(sl[x], cache[x]) as int == MarkClass
    }

    ghost function Marks(): set<int>
      reads this`slots, this`bidiCls
      requires |bidiCls| == |slots|
    {
      MarksOf(slots, bidiCls)
    }

    /** Everything the segment holds besides the links and the bidi cache. */
    ghost function Rest(): (seq<Slot>, seq<int>, int, int, seq<CharInfo>, seq<SlotCollision>, bv64, uint32)
      reads this
    {
      (slots, order, first, last, charinfo, collisions, dir, passBits)
    }

    /**
     * An empty segment for `numChars` characters.  Go's `newSegment` leaves
     * `passBits` at zero; the caller's initial mask is a parameter here.
     */
    constructor (glyphExists: uint16 -> bool, glyphAttr: (uint16, uint16) -> int16,
                 attrBreakWeight: uint16, attrSkipPasses: uint16, attrDirectionality: uint16,
                 numPasses: nat, numChars: nat, dir: bv64, passBits: uint32)
      ensures Valid() && order == [] && slots == [] && first == NIL && last == NIL
      ensures |charinfo| == numChars && collisions == [] && this.dir == dir && this.passBits == passBits
      ensures this.glyphExists == glyphExists && this.glyphAttr == glyphAttr
      ensures this.attrBreakWeight == attrBreakWeight && this.attrSkipPasses == attrSkipPasses
      ensures this.attrDirectionality == attrDirectionality && this.numPasses == numPasses
    {
      this.glyphExists := glyphExists;
      this.glyphAttr := glyphAttr;
      this.attrBreakWeight := attrBreakWeight;
      this.attrSkipPasses := attrSkipPasses;
      this.attrDirectionality := attrDirectionality;
      this.numPasses := numPasses;
      slots, next, prev, bidiCls := [], [], [], [];
      first, last := NIL, NIL;
      charinfo := seq(numChars, _ => CharInfo(0, 0, 0, 0, 0));
      collisions := [];
      this.dir := dir;
      this.passBits := passBits;
      order := [];
    }

    /** `Valid()` implies the `next.prev == s` invariant. */
    lemma ValidLocallyLinked()
      requires Valid()
      ensures LocallyLinked(next, prev)
    {
      ListLocallyLinked(next, prev, order, first, last);
    }

    /** `currdir()`. */
    function CurrentDir(): (r: bool)
      reads this
      ensures r == CurrDir(dir)
    {
      ((dir >> 6) ^ dir) & 1 != 0
    }

    /** `getCharInfo`: nil exactly when the index is past the table. */
    function GetCharInfo(index: nat): (r: Option<CharInfo>)
      reads this
      ensures r.None? <==> index >= |charinfo|
      ensures r.Some? ==> r.value == charinfo[index]
    {
      if index < |charinfo| then Some(charinfo[index]) else None
    }

    /** `getCollisionInfo`: nil exactly when the slot's index is past the table. */
    function GetCollisionInfo(s: int): (r: Option<SlotCollision>)
      reads this
      requires 0 <= s < |slots|
      ensures r.None? <==> slots[s].index >= |collisions|
      ensures r.Some? ==> r.value == collisions[slots[s].index]
    {
      if slots[s].index < |collisions| then Some(collisions[slots[s].index]) else None
    }

    /** The skip-pass mask a glyph contributes (both attribute words when there are over 16 passes). */
    function SkipMask(gid: uint16): uint32
    {
      var lo := AttrBits(glyphAttr(gid, attrSkipPasses));
      if numPasses > 16 then
        var hi := Shl16(AttrBits(glyphAttr(gid, ToUint16(attrSkipPasses as int + 1))));
        Pow2Of32();
        OrBelow(lo as nat, hi as nat, 32);
        BitOr(lo as nat, hi as nat) as uint32
      else lo
    }

    /** `mergePassBits`: ANDs the mask in, so it can only clear bits. */
    method MergePassBits(val: uint32)
      modifies this`passBits
      ensures passBits as int == BitAnd(old(passBits) as int, val as int)
      ensures BitAnd(passBits as int, old(passBits) as int) == passBits as int
      ensures slots == old(slots) && next == old(next) && prev == old(prev) && bidiCls == old(bidiCls)
      ensures order == old(order) && first == old(first) && last == old(last)
      ensures charinfo == old(charinfo) && collisions == old(collisions) && dir == old(dir)
    {
      passBits := BitAnd(passBits as int, val as int) as uint32;
      AndAbsorbs(old(passBits) as int, val as int);
    }

    /**
     * `getSlotBidiClass` on a cache column `cache`: answers from the cache,
     * computing the class from the glyph's directionality attribute on a miss
     * and storing it.
     */
    method LookupClass(s: int, cache: seq<int8>) returns (r: int8, cache1: seq<int8>)
      requires 0 <= s < |slots| && |cache| == |slots|
      ensures r == ClassOf(slots[s], cache[s])
      ensures cache[s] != -1 ==> r == cache[s] && cache1 == cache
      ensures cache[s] == -1 ==> cache1 == cache[s := r]
      ensures |cache1| == |slots| && MarksOf(slots, cache1) == MarksOf(slots, cache)
      ensures r as int == MarkClass <==> s in MarksOf(slots, cache)
    {
      r := cache[s];
      if r != -1 {
        return r, cache;
      }
      r := ToInt8(glyphAttr(slots[s].glyph, attrDirectionality) as int);
      cache1 := cache[s := r];
      assert forall x :: 0 <= x < |slots| ==> ClassOf(slots[x], cache1[x]) == ClassOf(slots[x], cache[x]);
    }

    /** `getSlotBidiClass` on the segment's own cache. */
    method GetSlotBidiClass(s: int) returns (r: int8)
      requires 0 <= s < |slots| && |bidiCls| == |slots|
      modifies this
      ensures r == old(ClassOf(slots[s], bidiCls[s]))
      ensures old(bidiCls[s]) != -1 ==> r == old(bidiCls[s]) && bidiCls == old(bidiCls)
      ensures old(bidiCls[s]) == -1 ==> bidiCls == old(bidiCls)[s := r]
      ensures |bidiCls| == |slots| && Marks() == old(Marks())
      ensures next == old(next) && prev == old(prev) && Rest() == old(Rest())
    {
      r, bidiCls := LookupClass(s, bidiCls);
    }

    /**
     * `appendSlot`: records the character, makes a slot for the glyph
     * (`setGlyph` sets the glyph and clears the bidi cache) and links it
     * after `last`.
     */
    method AppendSlot(index: int, cid: int, gid: uint16)
      requires Valid() && 0 <= index < |charinfo|
      modifies this`slots, this`bidiCls, this`next, this`prev, this`first, this`last, this`order
      modifies this`charinfo, this`passBits
      ensures Valid()
      ensures var id := |old(slots)|;
              order == old(order) + [id] && last == id &&
              first == (if old(first) == NIL then id else old(first)) &&
              slots == old(slots) + [Slot(gid, index, index, index, NIL, 0)] &&
              bidiCls == old(bidiCls) + [-1] && prev == old(prev) + [old(last)] &&
              next == (if old(last) != NIL then old(next)[old(last) := id] else old(next)) + [NIL]
      ensures charinfo == old(charinfo)[index := old(charinfo[index]).(
                ch := cid,
                breakWeight := if glyphExists(gid) then glyphAttr(gid, attrBreakWeight) else old(charinfo[index].breakWeight))]
      ensures passBits as int == if glyphExists(gid) && attrSkipPasses != 0
                                 then BitAnd(old(passBits) as int, SkipMask(gid) as int)
                                 else old(passBits) as int
      ensures BitAnd(passBits as int, old(passBits) as int) == passBits as int
      ensures collisions == old(collisions) && dir == old(dir)
    {
      SetCharInfo(index, cid, gid);
      SkipPasses(gid);
      AppendLinked(index, gid);
    }

    /** The character's code and, for a glyph that exists, its break weight. */
    method SetCharInfo(index: int, cid: int, gid: uint16)
      requires 0 <= index < |charinfo|
      modifies this`charinfo
      ensures charinfo == old(charinfo)[index := old(charinfo[index]).(
                ch := cid,
                breakWeight := if glyphExists(gid) then glyphAttr(gid, attrBreakWeight) else old(charinfo[index].breakWeight))]
    {
      var info := charinfo[index].(ch := cid);
      if glyphExists(gid) {
        info := info.(breakWeight := glyphAttr(gid, attrBreakWeight));
      }
      charinfo := charinfo[index := info];
    }

    /** The new slot for character `index` with glyph `gid`, linked in after the last. */
    method AppendLinked(index: int, gid: uint16)
      requires Valid()
      modifies this`slots, this`bidiCls, this`next, this`prev, this`first, this`last, this`order
      ensures Valid()
      ensures var id := |old(slots)|;
              order == old(order) + [id] && last == id &&
              first == (if old(first) == NIL then id else old(first)) &&
              slots == old(slots) + [Slot(gid, index, index, index, NIL, 0)] &&
              bidiCls == old(bidiCls) + [-1] && prev == old(prev) + [old(last)] &&
              next == (if old(last) != NIL then old(next)[old(last) := id] else old(next)) + [NIL]
    {
      // The new links are computed first and stored together.
      var sl := |slots|;
      var nx, pv, f := AppendedLinks();
      slots, bidiCls := slots + [Slot(gid, index, index, index, NIL, 0)], bidiCls + [-1];
      next, prev, first, last := nx, pv, f, sl;
      order := order + [sl];
    }

    /** The pass mask `appendSlot` merges for a glyph that exists, when skip passes are set. */
    method SkipPasses(gid: uint16)
      modifies this`passBits
      ensures passBits as int == if glyphExists(gid) && attrSkipPasses != 0
                                 then BitAnd(old(passBits) as int, SkipMask(gid) as int)
                                 else old(passBits) as int
      ensures BitAnd(passBits as int, old(passBits) as int) == passBits as int
    {
      if glyphExists(gid) && attrSkipPasses != 0 {
        MergePassBits(SkipMask(gid));
      } else {
        AndSelf(passBits as int);
      }
    }

    /** The links of the list with one more slot, `|slots|`, hooked after the last. */
    method AppendedLinks() returns (nx: seq<int>, pv: seq<int>, f: int)
      requires Valid()
      ensures nx == (if last != NIL then next[last := |slots|] else next) + [NIL]
      ensures pv == prev + [last] && f == (if first == NIL then |slots| else first)
      ensures LinksOk(|slots| + 1, nx, pv, bidiCls + [-1], order + [|slots|], f, |slots|)
    {
      var sl := |slots|;
      nx := next;
      if last != NIL {
        assert last == order[|order| - 1];
        nx := nx[last := sl];
      }
      nx := nx + [NIL];
      pv := prev + [last];
      f := if first == NIL then sl else first;
      AppendKeepsList(next, prev, order, first, last, nx, pv);
      AppendCovers(order, sl);
    }

    /**
     * `reverseSlots`: toggles the reverse flag and reverses the clusters of the
     * list, each diacritic run staying right after its base and a leading run
     * of diacritics staying in front.
     */
    method ReverseSlots()
      requires Valid()
      modifies this`next, this`prev, this`bidiCls, this`first, this`last, this`order, this`dir
      ensures Valid()
      ensures dir == old(dir) ^ ReverseFlag
      ensures order == Reordered(old(order), old(Marks()))
      ensures slots == old(slots) && Marks() == old(Marks())
      ensures charinfo == old(charinfo) && collisions == old(collisions) && passBits == old(passBits)
    {
      var nx, pv, cache, f1, l1;
      ghost var N;
      nx, pv, cache, f1, l1, N := ReversedLinks();
      next, prev, bidiCls, first, last, order, dir := nx, pv, cache, f1, l1, N, dir ^ ReverseFlag;
    }

    /**
     * The links, head, tail and bidi cache `reverseSlots` leaves behind, computed
     * on copies of the link columns; `N` is the new order.
     */
    method ReversedLinks() returns (nx: seq<int>, pv: seq<int>, cache: seq<int8>, f1: int, l1: int,
                                    ghost N: seq<int>)
      requires Valid()
      ensures N == Reordered(order, Marks())
      ensures LinksOk(|slots|, nx, pv, cache, N, f1, l1)
      ensures MarksOf(slots, cache) == Marks()
    {
      ghost var L, M := order, Marks();
      N := Reordered(L, M);
      ReorderedCovers(L, M, |slots|);
      if first == last {
        ShortListKept();
        return next, prev, bidiCls, first, last, N;
      }
      var curr;
      ghost var k;
      curr, k, cache := SkipMarks(first, next, prev, bidiCls, L, M);
      if curr == NIL {
        AllMarksKept(L, M);
        return next, prev, cache, first, last, N;
      }
      nx, pv, cache, f1, l1 := ReverseFrom(curr, first, next, prev, cache, L, M, k);
    }

    /** A list of at most one slot is its own reordering. */
    lemma ShortListKept()
      requires Valid() && first == last
      ensures order == Reordered(order, Marks())
    {
      assert |order| <= 1;
      ReorderedShort(order, Marks());
    }

    /** A list of diacritics only is its own reordering. */
    lemma AllMarksKept(L: seq<int>, M: set<int>)
      requires AllMarks(L, M)
      ensures L == Reordered(L, M)
    {
      assert L[..|L|] == L;
      FirstBaseIs(L, M, |L|);
      assert L[..|L|] == L && L[|L|..] == [];
      assert RevClusters([], M) == [];
    }

    /**
     * `reverseSlots` from the first base `curr` = `L[k]` on, on the link views
     * `nx`, `pv` of the list `L` headed by `f`: the main loop, then the reversed
     * part is hooked after the leading diacritics (or becomes the head).
     */
    method ReverseFrom(curr: int, f: int, nx: seq<int>, pv: seq<int>, cache: seq<int8>,
                       ghost L: seq<int>, ghost M: set<int>, ghost k: int)
      returns (nx1: seq<int>, pv1: seq<int>, cache1: seq<int8>, f1: int, l1: int)
      requires Orig(nx, pv, L) && f == L[0] && 0 <= k < |L| && curr == L[k]
      requires AllMarks(L[..k], M) && curr !in M
      requires last == L[|L| - 1] && |slots| == |L| && |cache| == |slots| && M == MarksOf(slots, cache)
      ensures |nx1| == |nx| && |pv1| == |pv| && IsList(nx1, pv1, Reordered(L, M), f1, l1)
      ensures |cache1| == |slots| && MarksOf(slots, cache1) == M
    {
      StartState(nx, pv, L, M, k);
      Pending(nx, pv, nx, pv, L, k, k, k);
      var tfirst := pv[curr];
      var out, tlast;
      ghost var R;
      nx1, pv1, cache1, out, tlast, R := ReverseRuns(curr, nx, pv, cache, L, M, k);
      FinishStep(nx1, pv1, nx, pv, L, M, k, R, out, tlast, tfirst);
      pv1 := pv1[out := tfirst];
      f1 := f;
      if tfirst != NIL {
        nx1 := nx1[tfirst := out];
      } else {
        f1 := out;
      }
      l1 := tlast;
    }

    /**
     * The main loop of `reverseSlots`, from the first base `L[k]` on, on the
     * link views `nx`, `pv` of the list `L`: each base becomes the head of the
     * reversed part `R`, each run of diacritics moves behind the base it followed.
     */
    method ReverseRuns(curr: int, nx: seq<int>, pv: seq<int>, cache: seq<int8>,
                       ghost L: seq<int>, ghost M: set<int>, ghost k: int)
      returns (nx1: seq<int>, pv1: seq<int>, cache1: seq<int8>, out: int, tlast: int, ghost R: seq<int>)
      requires Orig(nx, pv, L) && 0 <= k < |L| && curr == L[k] && RevState(nx, pv, nx, pv, L, M, k, k, [], NIL, L[k])
      requires last == L[|L| - 1] && |slots| == |L| && |cache| == |slots| && M == MarksOf(slots, cache)
      ensures RevState(nx1, pv1, nx, pv, L, M, k, |L|, R, out, tlast)
      ensures |cache1| == |slots| && MarksOf(slots, cache1) == M
    {
      nx1, pv1, cache1 := nx, pv, cache;
      var cur := curr;
      tlast := curr;
      out := NIL;
      R := [];
      ghost var j := k;
      while cur != NIL
        invariant RevState(nx1, pv1, nx, pv, L, M, k, j, R, out, tlast)
        invariant cur == (if j < |L| then L[j] else NIL)
        invariant |cache1| == |slots| && MarksOf(slots, cache1) == M
        decreases |L| - j
      {
        cur, out, tlast, nx1, pv1, cache1, j, R := RunStep(cur, out, tlast, nx1, pv1, cache1, nx, pv, L, M, k, j, R);
      }
    }

    /**
     * One turn of the main loop of `reverseSlots` at `cur` = `L[j]`: a base
     * becomes the new head of the reversed part; a run of diacritics moves
     * behind the base it followed.
     */
    method RunStep(cur: int, out: int, tlast: int, nx: seq<int>, pv: seq<int>, cache: seq<int8>,
                   ghost nx0: seq<int>, ghost pv0: seq<int>, ghost L: seq<int>, ghost M: set<int>,
                   ghost k: int, ghost j: int, ghost R: seq<int>)
      returns (cur1: int, out1: int, tlast1: int, nx1: seq<int>, pv1: seq<int>, cache1: seq<int8>,
               ghost j1: int, ghost R1: seq<int>)
      requires Orig(nx0, pv0, L) && RevState(nx, pv, nx0, pv0, L, M, k, j, R, out, tlast)
      requires j < |L| && cur == L[j]
      requires last == L[|L| - 1] && |slots| == |L| && |cache| == |slots| && M == MarksOf(slots, cache)
      ensures j < j1 <= |L| && cur1 == (if j1 < |L| then L[j1] else NIL)
      ensures RevState(nx1, pv1, nx0, pv0, L, M, k, j1, R1, out1, tlast1)
      ensures |cache1| == |slots| && MarksOf(slots, cache1) == M
    {
      Pending(nx, pv, nx0, pv0, L, k, j, j);
      var c;
      c, cache1 := LookupClass(cur, cache);
      if c as int == MarkClass {
        cur1, out1, tlast1, nx1, pv1, cache1, j1, R1 := MarkTurn(cur, out, tlast, nx, pv, cache1, nx0, pv0, L, M, k, j, R);
      } else {
        cur1, out1, tlast1, nx1, pv1, j1, R1 := BaseTurn(cur, out, tlast, nx, pv, nx0, pv0, L, M, k, j, R);
      }
    }

    /** The diacritic turn of the loop, stated as one step of the loop's invariant. */
    method MarkTurn(cur: int, out: int, tlast: int, nx: seq<int>, pv: seq<int>, cache: seq<int8>,
                    ghost nx0: seq<int>, ghost pv0: seq<int>, ghost L: seq<int>, ghost M: set<int>,
                    ghost k: int, ghost j: int, ghost R: seq<int>)
      returns (cur1: int, out1: int, tlast1: int, nx1: seq<int>, pv1: seq<int>, cache1: seq<int8>,
               ghost j1: int, ghost R1: seq<int>)
      requires Orig(nx0, pv0, L) && RevState(nx, pv, nx0, pv0, L, M, k, j, R, out, tlast)
      requires j < |L| && cur == L[j] && L[j] in M
      requires last == L[|L| - 1] && |slots| == |L| && |cache| == |slots| && M == MarksOf(slots, cache)
      ensures j < j1 <= |L| && cur1 == (if j1 < |L| then L[j1] else NIL)
      ensures RevState(nx1, pv1, nx0, pv0, L, M, k, j1, R1, out1, tlast1)
      ensures |cache1| == |slots| && MarksOf(slots, cache1) == M
    {
      nx1, pv1, cache1, cur1, tlast1, j1 := MoveMarks(cur, out, tlast, nx, pv, cache, nx0, pv0, L, M, k, j, R);
      R1, out1 := [out] + L[j..j1] + R[1..], out;
    }

    /** The base turn of the loop, stated as one step of the loop's invariant. */
    method BaseTurn(cur: int, out: int, tlast: int, nx: seq<int>, pv: seq<int>,
                    ghost nx0: seq<int>, ghost pv0: seq<int>, ghost L: seq<int>, ghost M: set<int>,
                    ghost k: int, ghost j: int, ghost R: seq<int>)
      returns (cur1: int, out1: int, tlast1: int, nx1: seq<int>, pv1: seq<int>,
               ghost j1: int, ghost R1: seq<int>)
      requires Orig(nx0, pv0, L) && RevState(nx, pv, nx0, pv0, L, M, k, j, R, out, tlast)
      requires j < |L| && cur == L[j] && L[j] !in M
      ensures j < j1 <= |L| && cur1 == (if j1 < |L| then L[j1] else NIL)
      ensures RevState(nx1, pv1, nx0, pv0, L, M, k, j1, R1, out1, tlast1)
    {
      nx1, pv1, cur1 := MoveBase(cur, out, nx, pv, nx0, pv0, L, M, k, j, R, tlast);
      R1, j1, out1, tlast1 := [L[j]] + R, j + 1, cur, tlast;
    }

    /**
     * The first loop of `reverseSlots`: from `f`, the head of `L`, skips the
     * leading diacritics up to the first base `L[k]`.
     */
    method SkipMarks(f: int, nx: seq<int>, ghost pv: seq<int>, cache: seq<int8>, ghost L: seq<int>, ghost M: set<int>)
      returns (curr: int, ghost k: int, cache1: seq<int8>)
      requires Orig(nx, pv, L) && f == L[0] && |slots| == |L| && |cache| == |slots| && M == MarksOf(slots, cache)
      ensures 0 <= k <= |L| && curr == (if k < |L| then L[k] else NIL)
      ensures AllMarks(L[..k], M) && (k < |L| ==> L[k] !in M)
      ensures |cache1| == |slots| && MarksOf(slots, cache1) == M
    {
      cache1 := cache;
      curr := f;
      k := 0;
      while curr != NIL
        invariant 0 <= k <= |L| && curr == (if k < |L| then L[k] else NIL)
        invariant AllMarks(L[..k], M)
        invariant |cache1| == |slots| && MarksOf(slots, cache1) == M
        decreases |L| - k
      {
        var c;
        c, cache1 := LookupClass(curr, cache1);
        if c as int != MarkClass {
          return;
        }
        assert L[..k + 1] == L[..k] + [L[k]];
        curr := nx[curr];
        k := k + 1;
      }
    }

    /** The base branch of the `reverseSlots` loop: slot `curr` becomes the head of the reversed part. */
    method MoveBase(curr: int, out: int, nx: seq<int>, pv: seq<int>, ghost nx0: seq<int>, ghost pv0: seq<int>,
                    ghost L: seq<int>, ghost M: set<int>, ghost k: int, ghost j: int, ghost R: seq<int>,
                    ghost tlast: int)
      returns (nx1: seq<int>, pv1: seq<int>, t: int)
      requires Orig(nx0, pv0, L) && RevState(nx, pv, nx0, pv0, L, M, k, j, R, out, tlast)
      requires j < |L| && curr == L[j] && L[j] !in M
      ensures RevState(nx1, pv1, nx0, pv0, L, M, k, j + 1, [L[j]] + R, curr, tlast)
      ensures t == (if j + 1 < |L| then L[j + 1] else NIL)
    {
      BaseStep(nx, pv, nx0, pv0, L, M, k, j, R, out, tlast);
      pv1 := pv;
      if out != NIL {
        pv1 := pv1[out := curr];
      }
      t := nx[curr];
      nx1 := nx[curr := out];
    }

    /**
     * The diacritic branch of the `reverseSlots` loop: the run of marks from
     * `curr` on moves right after `out`, the base it followed.
     */
    method MoveMarks(curr: int, out: int, tlast: int, nx: seq<int>, pv: seq<int>, cache: seq<int8>,
                     ghost nx0: seq<int>, ghost pv0: seq<int>, ghost L: seq<int>, ghost M: set<int>,
                     ghost k: int, ghost j: int, ghost R: seq<int>)
      returns (nx1: seq<int>, pv1: seq<int>, cache1: seq<int8>, t: int, tlast1: int, ghost e: int)
      requires Orig(nx0, pv0, L) && RevState(nx, pv, nx0, pv0, L, M, k, j, R, out, tlast)
      requires j < |L| && curr == L[j] && L[j] in M
      requires last == L[|L| - 1] && |slots| == |L| && |cache| == |slots| && M == MarksOf(slots, cache)
      ensures j < e <= |L|
      ensures RevState(nx1, pv1, nx0, pv0, L, M, k, e, [out] + L[j..e] + R[1..], out, tlast1)
      ensures t == (if e < |L| then L[e] else NIL)
      ensures |cache1| == |slots| && MarksOf(slots, cache1) == M
    {
      var d;
      d, e, cache1 := ScanMarks(curr, nx, pv, cache, nx0, pv0, L, M, k, j);
      MarkStep(nx, pv, nx0, pv0, L, M, k, j, R, out, tlast, e);
      if d != NIL {
        d := pv[d];
      } else {
        d := last;
      }
      assert d == L[e - 1];
      var p := nx[out];
      tlast1 := tlast;
      pv1 := pv;
      if p != NIL {
        pv1 := pv1[p := d];
      } else {
        tlast1 := d;
      }
      t := nx[d];
      nx1 := nx[d := p];
      pv1 := pv1[curr := out];
      nx1 := nx1[out := curr];
    }

    /** The inner loop of the diacritic branch: finds the end `e` of the run of marks from `L[j]`. */
    method ScanMarks(curr: int, nx: seq<int>, ghost pv: seq<int>, cache: seq<int8>, ghost nx0: seq<int>,
                     ghost pv0: seq<int>, ghost L: seq<int>, ghost M: set<int>, ghost k: int, ghost j: int)
      returns (d: int, ghost e: int, cache1: seq<int8>)
      requires Orig(nx0, pv0, L) && Untouched(nx, pv, nx0, pv0, L, k, j)
      requires j < |L| && curr == L[j] && L[j] in M
      requires |slots| == |L| && |cache| == |slots| && M == MarksOf(slots, cache)
      ensures j < e <= |L| && d == (if e < |L| then L[e] else NIL)
      ensures AllMarks(L[j..e], M) && (e < |L| ==> L[e] !in M)
      ensures |cache1| == |slots| && MarksOf(slots, cache1) == M
    {
      cache1 := cache;
      Pending(nx, pv, nx0, pv0, L, k, j, j);
      d := nx[curr];
      e := j + 1;
      assert AllMarks(L[j..e], M);
      while d != NIL
        invariant j < e <= |L| && d == (if e < |L| then L[e] else NIL)
        invariant AllMarks(L[j..e], M)
        invariant |cache1| == |slots| && MarksOf(slots, cache1) == M
        decreases |L| - e
      {
        Pending(nx, pv, nx0, pv0, L, k, j, e);
        var cd;
        cd, cache1 := LookupClass(d, cache1);
        if cd as int != MarkClass {
          return;
        }
        assert L[j..e + 1] == L[j..e] + [L[e]];
        d := nx[d];
        e := e + 1;
      }
    }

    /**
     * The reorder bracket of `positionSlots`: reverse when the requested
     * direction differs from `currdir()`, stop on an empty segment, and
     * reverse back at the end.  Returns whether the positioning loop (not
     * modelled) would run.
     */
    method PositionSlots(isRtl: bool, iStart: int, iEnd: int) returns (positioned: bool)
      requires Valid()
      requires iStart == NIL || 0 <= iStart < |slots|
      requires iEnd == NIL || 0 <= iEnd < |slots|
      modifies this
      ensures Valid()
      ensures positioned <==> old(slots) != []
      ensures positioned ==> (order == old(order) && dir == old(dir) && next == old(next) &&
                              prev == old(prev) && first == old(first) && last == old(last))
      ensures !positioned ==> (order == [] &&
                               dir == (if old(CurrentDir()) != isRtl then old(dir) ^ ReverseFlag else old(dir)))
      ensures slots == old(slots) && Marks() == old(Marks())
      ensures charinfo == old(charinfo) && collisions == old(collisions) && passBits == old(passBits)
    {
      ghost var L, M := order, Marks();
      ghost var nx0, pv0, f0, l0 := next, prev, first, last;
      var reorder := CurrentDir() != isRtl;
      var s, e := iStart, iEnd;
      if reorder {
        ReverseSlots();
        s, e := iEnd, iStart;
      }
      if s == NIL {
        s := first;
      }
      if e == NIL {
        e := last;
      }
      if s == NIL || e == NIL {
        return false;
      }
      if reorder {
        ReverseBack(L, nx0, pv0, f0, l0);
      }
      positioned := true;
    }

    /**
     * The second `reverseSlots` of `positionSlots`: reversing the reversed
     * list restores the order and the links it started from.
     */
    method ReverseBack(ghost L: seq<int>, ghost nx0: seq<int>, ghost pv0: seq<int>, ghost f0: int, ghost l0: int)
      requires Valid() && order == Reordered(L, Marks())
      requires IsList(nx0, pv0, L, f0, l0) && |nx0| == |slots| && Distinct(L)
      requires forall x :: 0 <= x < |slots| ==> x in L
      modifies this`next, this`prev, this`bidiCls, this`first, this`last, this`order, this`dir
      ensures Valid() && dir == old(dir) ^ ReverseFlag
      ensures order == L && next == nx0 && prev == pv0 && first == f0 && last == l0
      ensures slots == old(slots) && Marks() == old(Marks())
    {
      ghost var M := Marks();
      ReverseSlots();
      ReorderedInvolutive(L, M);
      ListDeterminesLinks(nx0, pv0, next, prev, L, f0, l0);
    }

    /** The glyph `doMirror` gives a slot, when it changes it. */
    function MirrorGlyph(sl: Slot, aMirror: byte): Option<uint16>
      reads this`dir
    {
      var g := ToUint16(glyphAttr(sl.glyph, aMirror as uint16) as int);
      if g != 0 && (dir & 4 == 0 || glyphAttr(sl.glyph, aMirror as uint16 + 1) == 0) then Some(g) else None
    }

    /**
     * `doMirror`: every slot of the list whose glyph has a mirror takes it
     * (and `setGlyph` clears its bidi cache); the other slots are unchanged.
     */
    method DoMirror(aMirror: byte)
      requires Valid()
      modifies this`slots, this`bidiCls
      ensures Valid()
      ensures |slots| == |old(slots)|
      ensures forall x :: 0 <= x < |slots| ==>
                match MirrorGlyph(old(slots[x]), aMirror)
                case Some(g) => slots[x] == old(slots[x]).(glyph := g) && bidiCls[x] == -1
                case None => slots[x] == old(slots[x]) && bidiCls[x] == old(bidiCls[x])
      ensures next == old(next) && prev == old(prev) && order == old(order)
      ensures first == old(first) && last == old(last) && dir == old(dir)
      ensures charinfo == old(charinfo) && collisions == old(collisions) && passBits == old(passBits)
    {
      var sl, cache := MirroredColumns(aMirror);
      slots, bidiCls := sl, cache;
    }

    /**
     * The walk of `doMirror` along the list, on copies of the slot and bidi
     * cache columns: every slot whose mirror attribute names a glyph takes it
     * and loses its cached class.
     */
    method MirroredColumns(aMirror: byte) returns (sl: seq<Slot>, cache: seq<int8>)
      requires Valid()
      ensures |sl| == |slots| && |cache| == |slots|
      ensures forall x :: 0 <= x < |slots| ==>
                match MirrorGlyph(slots[x], aMirror)
                case Some(g) => sl[x] == slots[x].(glyph := g) && cache[x] == -1
                case None => sl[x] == slots[x] && cache[x] == bidiCls[x]
    {
      ghost var L, S0, B0 := order, slots, bidiCls;
      ghost var n := |L|;
      sl, cache := slots, bidiCls;
      var s := first;
      ghost var k := 0;
      while s != NIL
        invariant 0 <= k <= n && s == (if k < n then L[k] else NIL)
        invariant |sl| == n && |cache| == n
        invariant forall m :: 0 <= m < k ==> MirroredAt(sl, cache, S0, B0, L[m], aMirror)
        invariant forall m :: k <= m < n ==> sl[L[m]] == S0[L[m]] && cache[L[m]] == B0[L[m]]
        decreases n - k
      {
        var g := ToUint16(glyphAttr(sl[s].glyph, aMirror as uint16) as int);
        if g != 0 && (dir & 4 == 0 || glyphAttr(sl[s].glyph, aMirror as uint16 + 1) == 0) {
          sl := sl[s := sl[s].(glyph := g)];
          cache := cache[s := -1];
        }
        assert MirroredAt(sl, cache, S0, B0, s, aMirror);
        forall m | 0 <= m < n && m != k
          ensures L[m] != s
        {
        }
        s := next[s];
        k := k + 1;
      }
      forall x | 0 <= x < n
        ensures match MirrorGlyph(S0[x], aMirror)
                case Some(g) => sl[x] == S0[x].(glyph := g) && cache[x] == -1
                case None => sl[x] == S0[x] && cache[x] == B0[x]
      {
        var m := IndexOf(L, x);
        assert MirroredAt(sl, cache, S0, B0, L[m], aMirror);
      }
    }

    /** Slot `x` of `sl` and `cache` is slot `x` of `S0` and `B0` after `doMirror`. */
    ghost predicate MirroredAt(sl: seq<Slot>, cache: seq<int8>, S0: seq<Slot>, B0: seq<int8>, x: int, aMirror: byte)
      reads this`dir
    {
      && 0 <= x < |sl| && x < |cache| && x < |S0| && x < |B0|
      && match MirrorGlyph(S0[x], aMirror)
         case Some(g) => sl[x] == S0[x].(glyph := g) && cache[x] == -1
         case None => sl[x] == S0[x] && cache[x] == B0[x]
    }
  }
}

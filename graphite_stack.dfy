// The operand stack of the Graphite rule virtual machine: a fixed array of
// 1024 signed 32-bit values and a `top` counter, with the live instructions
// (immediate pushes, arithmetic, comparison, logic and `cond`).  Every
// instruction answers whether the stack is still below its capacity.

module GraphiteStack {
  import opened Common

  const StackMax: int := 1024

  // ---------------------------------------------------------------------
  // Value semantics of the instructions
  // ---------------------------------------------------------------------

  /** `int32(int8(b))`: the operand byte read as a signed byte. */
  function SignedByte(b: byte): (r: int32)
    ensures -0x80 <= r < 0x80
    ensures (r as int - b as int) % TWO8 == 0
    ensures b < 0x80 ==> r as int == b as int
  {
    ToInt8(b as int) as int32
  }

  /** `int16(hi)<<8 | int16(lo)`: two bytes read big-endian as signed 16 bits. */
  function SignedShort(hi: byte, lo: byte): (r: int32)
    ensures -0x8000 <= r < 0x8000
    ensures (r as int - (hi as int * 0x100 + lo as int)) % TWO16 == 0
  {
    ToInt16(hi as int * 0x100 + lo as int) as int32
  }

  /** `uint16(hi)<<8 | uint16(lo)`: two bytes read big-endian as unsigned 16 bits. */
  function UnsignedShort(hi: byte, lo: byte): (r: int32)
    ensures 0 <= r < 0x1_0000
    ensures r as int / 0x100 == hi as int && r as int % 0x100 == lo as int
  {
    (hi as int * 0x100 + lo as int) as int32
  }

  /** Four bytes read big-endian as a signed 32-bit value. */
  function SignedLong(b0: byte, b1: byte, b2: byte, b3: byte): (r: int32)
    ensures (r as int - BE32([b0, b1, b2, b3], 0) as int) % TWO32 == 0
    ensures b0 < 0x80 ==> r as int == BE32([b0, b1, b2, b3], 0) as int
  {
    ToInt32(BE32([b0, b1, b2, b3], 0) as int)
  }

  function Add32(a: int32, b: int32): (r: int32)
    ensures (r as int - (a as int + b as int)) % TWO32 == 0
  {
    ToInt32(a as int + b as int)
  }

  function Sub32(a: int32, b: int32): (r: int32)
    ensures (r as int - (a as int - b as int)) % TWO32 == 0
  {
    ToInt32(a as int - b as int)
  }

  function Mul32(a: int32, b: int32): (r: int32)
    ensures (r as int - a as int * b as int) % TWO32 == 0
  {
    ToInt32(a as int * b as int)
  }

  function Neg32(a: int32): (r: int32)
    ensures (r as int + a as int) % TWO32 == 0
  {
    ToInt32(-(a as int))
  }

  /** The hazards `div_` refuses: division by zero and `MinInt32 / -1`. */
  predicate DivHazard(a: int32, b: int32)
  {
    b == 0 || (a as int == MinInt32 && b == -1)
  }

  /** Go's `a / b` on int32 when no hazard applies: truncated toward zero. */
  function Div32(a: int32, b: int32): (r: int32)
    requires !DivHazard(a, b)
    ensures Abs(a as int - b as int * r as int) < Abs(b as int)
    ensures a as int - b as int * r as int == 0 || (a as int - b as int * r as int < 0 <==> a < 0)
  {
    QuotientFits(a, b);
    QuoTruncProps(a as int, b as int);
    QuoTrunc(a as int, b as int) as int32
  }

  /** `int32(uint8(x))`. */
  function Trunc8(x: int32): (r: int32)
    ensures 0 <= r < 0x100
    ensures (r as int - x as int) % TWO8 == 0
  {
    ToUint8(x as int) as int32
  }

  /** `int32(uint16(x))`. */
  function Trunc16(x: int32): (r: int32)
    ensures 0 <= r < 0x1_0000
    ensures (r as int - x as int) % TWO16 == 0
  {
    ToUint16(x as int) as int32
  }

  /** What `min_` leaves on top. */
  function Min32(a: int32, b: int32): (r: int32)
    ensures r <= a && r <= b
    ensures r == a || r == b
  {
    if a < b then a else b
  }

  /** What `max_` leaves on top. */
  function Max32(a: int32, b: int32): (r: int32)
    ensures r >= a && r >= b
    ensures r == a || r == b
  {
    if a > b then a else b
  }

  function BoolToInt(b: bool): (r: int32)
    ensures r == 0 || r == 1
    ensures r == 1 <==> b
  {
    if b then 1 else 0
  }

  // ---------------------------------------------------------------------
  // Lemmas about the value semantics
  // ---------------------------------------------------------------------

  lemma QuotientFits(a: int32, b: int32)
    requires !DivHazard(a, b)
    ensures MinInt32 <= QuoTrunc(a as int, b as int) <= MaxInt32
  {
    QuoTruncProps(a as int, b as int);
    if b == -1 {
      assert QuoTrunc(a as int, b as int) == -(a as int);
    }
  }

  /** Two int32 values congruent modulo 2^32 are equal. */
  lemma Int32Unique(x: int32, y: int32)
    requires (x as int - y as int) % TWO32 == 0
    ensures x == y
  {
  }

  /** `sub` undoes `add`, wrap-around included. */
  lemma SubUndoesAdd(a: int32, b: int32)
    ensures Sub32(Add32(a, b), b) == a
  {
    var s := Add32(a, b);
    var d := Sub32(s, b);
    assert (d as int - a as int) ==
      (d as int - (s as int - b as int)) + (s as int - (a as int + b as int));
    Mod32Sum(d as int - (s as int - b as int), s as int - (a as int + b as int));
    Int32Unique(d, a);
  }

  /** Negation is an involution, even on MinInt32 which it maps to itself. */
  lemma NegInvolutive(a: int32)
    ensures Neg32(Neg32(a)) == a
    ensures a as int == MinInt32 ==> Neg32(a) == a
  {
    var n := Neg32(a);
    var m := Neg32(n);
    assert m as int - a as int == (m as int + n as int) - (n as int + a as int);
    Mod32Sum(m as int + n as int, n as int + a as int);
    Int32Unique(m, a);
  }

  /** Truncation keeps exactly the low bits: applying it twice changes nothing. */
  lemma TruncIdempotent(x: int32)
    ensures Trunc8(Trunc8(x)) == Trunc8(x)
    ensures Trunc16(Trunc16(x)) == Trunc16(x)
  {
  }

  /** Quotients are truncated toward zero, whatever the signs. */
  lemma DivExamples()
    ensures Div32(7, 2) == 3 && Div32(-7, 2) == -3 && Div32(7, -2) == -3 && Div32(-7, -2) == 3
  {
  }

  // ---------------------------------------------------------------------
  // The stack object
  // ---------------------------------------------------------------------

  class Stack {
    const vals: array<int32>
    var top: int

    ghost predicate Valid()
      reads this
    {
      vals.Length == StackMax && 0 <= top <= StackMax
    }

    /** The live entries, bottom first; the top of the stack is the last one. */
    function Contents(): seq<int32>
      reads this, vals
      requires Valid()
    {
      vals[..top]
    }

    constructor ()
      ensures Valid() && Contents() == []
    {
      vals := new int32[StackMax];
      top := 0;
    }

    /** Writes `vals[top]`: an index out of range (a Go panic) when the stack is full. */
    method Push(r: int32)
      requires Valid() && top < StackMax
      modifies this, vals
      ensures Valid() && Contents() == old(Contents()) + [r]
    {
      vals[top] := r;
      top := top + 1;
    }

    method Pop() returns (v: int32)
      requires Valid() && top >= 1
      modifies this
      ensures Valid() && old(Contents()) == Contents() + [v]
    {
      v := vals[top - 1];
      top := top - 1;
    }

    /** Replaces the top entry. */
    method SetTop(v: int32)
      requires Valid() && top >= 1
      modifies vals
      ensures Valid() && Contents() == old(Contents())[..top - 1] + [v]
    {
      vals[top - 1] := v;
    }

    method Nop() returns (ok: bool)
      requires Valid()
      ensures ok <==> |Contents()| < StackMax
    {
      ok := top < StackMax;
    }

    method PushByte(dp: seq<byte>) returns (ok: bool)
      requires Valid() && top < StackMax && |dp| >= 1
      modifies this, vals
      ensures Valid() && Contents() == old(Contents()) + [SignedByte(dp[0])]
      ensures ok <==> |Contents()| < StackMax
    {
      Push(SignedByte(dp[0]));
      ok := top < StackMax;
    }

    method PushByteU(dp: seq<byte>) returns (ok: bool)
      requires Valid() && top < StackMax && |dp| >= 1
      modifies this, vals
      ensures Valid() && Contents() == old(Contents()) + [dp[0] as int32]
      ensures ok <==> |Contents()| < StackMax
    {
      Push(dp[0] as int32);
      ok := top < StackMax;
    }

    method PushShort(dp: seq<byte>) returns (ok: bool)
      requires Valid() && top < StackMax && |dp| >= 2
      modifies this, vals
      ensures Valid() && Contents() == old(Contents()) + [SignedShort(dp[0], dp[1])]
      ensures ok <==> |Contents()| < StackMax
    {
      Push(SignedShort(dp[0], dp[1]));
      ok := top < StackMax;
    }

    method PushShortU(dp: seq<byte>) returns (ok: bool)
      requires Valid() && top < StackMax && |dp| >= 2
      modifies this, vals
      ensures Valid() && Contents() == old(Contents()) + [UnsignedShort(dp[0], dp[1])]
      ensures ok <==> |Contents()| < StackMax
    {
      Push(UnsignedShort(dp[0], dp[1]));
      ok := top < StackMax;
    }

    method PushLong(dp: seq<byte>) returns (ok: bool)
      requires Valid() && top < StackMax && |dp| >= 4
      modifies this, vals
      ensures Valid() && Contents() == old(Contents()) + [SignedLong(dp[0], dp[1], dp[2], dp[3])]
      ensures ok <==> |Contents()| < StackMax
    {
      Push(SignedLong(dp[0], dp[1], dp[2], dp[3]));
      ok := top < StackMax;
    }

    method Add() returns (ok: bool)
      requires Valid() && top >= 2
      modifies this, vals
      ensures Valid()
      ensures Contents() == old(Contents())[..old(top) - 2] + [Add32(old(vals[top - 2]), old(vals[top - 1]))]
      ensures ok
    {
      var v := Pop();
      SetTop(Add32(vals[top - 1], v));
      ok := top < StackMax;
    }

    method Sub() returns (ok: bool)
      requires Valid() && top >= 2
      modifies this, vals
      ensures Valid()
      ensures Contents() == old(Contents())[..old(top) - 2] + [Sub32(old(vals[top - 2]), old(vals[top - 1]))]
      ensures ok
    {
      var v := Pop();
      SetTop(Sub32(vals[top - 1], v));
      ok := top < StackMax;
    }

    method Mul() returns (ok: bool)
      requires Valid() && top >= 2
      modifies this, vals
      ensures Valid()
      ensures Contents() == old(Contents())[..old(top) - 2] + [Mul32(old(vals[top - 2]), old(vals[top - 1]))]
      ensures ok
    {
      var v := Pop();
      SetTop(Mul32(vals[top - 1], v));
      ok := top < StackMax;
    }

    /** On a hazard the divisor is already popped and the dividend stays on top. */
    method Div() returns (ok: bool)
      requires Valid() && top >= 2
      modifies this, vals
      ensures Valid()
      ensures DivHazard(old(vals[top - 2]), old(vals[top - 1])) ==>
        !ok && Contents() == old(Contents())[..old(top) - 1]
      ensures !DivHazard(old(vals[top - 2]), old(vals[top - 1])) ==>
        ok && Contents() == old(Contents())[..old(top) - 2] + [Div32(old(vals[top - 2]), old(vals[top - 1]))]
    {
      var b := Pop();
      var a := vals[top - 1];
      if b == 0 || (a as int == MinInt32 && b == -1) {
        return false;
      }
      SetTop(Div32(a, b));
      ok := top < StackMax;
    }

    method Min() returns (ok: bool)
      requires Valid() && top >= 2
      modifies this, vals
      ensures Valid()
      ensures Contents() == old(Contents())[..old(top) - 2] + [Min32(old(vals[top - 1]), old(vals[top - 2]))]
      ensures ok
    {
      var a := Pop();
      var b := vals[top - 1];
      if a < b {
        SetTop(a);
      }
      ok := top < StackMax;
    }

    method Max() returns (ok: bool)
      requires Valid() && top >= 2
      modifies this, vals
      ensures Valid()
      ensures Contents() == old(Contents())[..old(top) - 2] + [Max32(old(vals[top - 1]), old(vals[top - 2]))]
      ensures ok
    {
      var a := Pop();
      var b := vals[top - 1];
      if a > b {
        SetTop(a);
      }
      ok := top < StackMax;
    }

    method Neg() returns (ok: bool)
      requires Valid() && top >= 1
      modifies vals
      ensures Valid() && Contents() == old(Contents())[..top - 1] + [Neg32(old(vals[top - 1]))]
      ensures ok <==> |Contents()| < StackMax
    {
      SetTop(Neg32(vals[top - 1]));
      ok := top < StackMax;
    }

    method TruncByte() returns (ok: bool)
      requires Valid() && top >= 1
      modifies vals
      ensures Valid() && Contents() == old(Contents())[..top - 1] + [Trunc8(old(vals[top - 1]))]
      ensures ok <==> |Contents()| < StackMax
    {
      SetTop(Trunc8(vals[top - 1]));
      ok := top < StackMax;
    }

    method TruncShort() returns (ok: bool)
      requires Valid() && top >= 1
      modifies vals
      ensures Valid() && Contents() == old(Contents())[..top - 1] + [Trunc16(old(vals[top - 1]))]
      ensures ok <==> |Contents()| < StackMax
    {
      SetTop(Trunc16(vals[top - 1]));
      ok := top < StackMax;
    }

    /** Pops `f`, `t`, `c` (in that order) and pushes `t` if `c != 0`, else `f`. */
    method Cond() returns (ok: bool)
      requires Valid() && top >= 3
      modifies this, vals
      ensures Valid()
      ensures Contents() == old(Contents())[..old(top) - 3] +
        [if old(vals[top - 3]) != 0 then old(vals[top - 2]) else old(vals[top - 1])]
      ensures ok
    {
      var f := Pop();
      var t := Pop();
      var c := Pop();
      if c != 0 {
        Push(t);
      } else {
        Push(f);
      }
      ok := top < StackMax;
    }

    method And() returns (ok: bool)
      requires Valid() && top >= 2
      modifies this, vals
      ensures Valid()
      ensures Contents() == old(Contents())[..old(top) - 2] +
        [BoolToInt(old(vals[top - 2]) != 0 && old(vals[top - 1]) != 0)]
      ensures ok
    {
      var v := Pop();
      var a := v != 0;
      SetTop(BoolToInt(vals[top - 1] != 0 && a));
      ok := top < StackMax;
    }

    method Or() returns (ok: bool)
      requires Valid() && top >= 2
      modifies this, vals
      ensures Valid()
      ensures Contents() == old(Contents())[..old(top) - 2] +
        [BoolToInt(old(vals[top - 2]) != 0 || old(vals[top - 1]) != 0)]
      ensures ok
    {
      var v := Pop();
      var a := v != 0;
      SetTop(BoolToInt(vals[top - 1] != 0 || a));
      ok := top < StackMax;
    }

    method Not() returns (ok: bool)
      requires Valid() && top >= 1
      modifies vals
      ensures Valid() && Contents() == old(Contents())[..top - 1] + [BoolToInt(old(vals[top - 1]) == 0)]
      ensures ok <==> |Contents()| < StackMax
    {
      SetTop(BoolToInt(vals[top - 1] == 0));
      ok := top < StackMax;
    }

    method Equal() returns (ok: bool)
      requires Valid() && top >= 2
      modifies this, vals
      ensures Valid()
      ensures Contents() == old(Contents())[..old(top) - 2] + [BoolToInt(old(vals[top - 2]) == old(vals[top - 1]))]
      ensures ok
    {
      var a := Pop();
      SetTop(BoolToInt(vals[top - 1] == a));
      ok := top < StackMax;
    }

    method NotEqual() returns (ok: bool)
      requires Valid() && top >= 2
      modifies this, vals
      ensures Valid()
      ensures Contents() == old(Contents())[..old(top) - 2] + [BoolToInt(old(vals[top - 2]) != old(vals[top - 1]))]
      ensures ok
    {
      var a := Pop();
      SetTop(BoolToInt(vals[top - 1] != a));
      ok := top < StackMax;
    }

    method Less() returns (ok: bool)
      requires Valid() && top >= 2
      modifies this, vals
      ensures Valid()
      ensures Contents() == old(Contents())[..old(top) - 2] + [BoolToInt(old(vals[top - 2]) < old(vals[top - 1]))]
      ensures ok
    {
      var a := Pop();
      SetTop(BoolToInt(vals[top - 1] < a));
      ok := top < StackMax;
    }

    method Greater() returns (ok: bool)
      requires Valid() && top >= 2
      modifies this, vals
      ensures Valid()
      ensures Contents() == old(Contents())[..old(top) - 2] + [BoolToInt(old(vals[top - 2]) > old(vals[top - 1]))]
      ensures ok
    {
      var a := Pop();
      SetTop(BoolToInt(vals[top - 1] > a));
      ok := top < StackMax;
    }

    method LessEqual() returns (ok: bool)
      requires Valid() && top >= 2
      modifies this, vals
      ensures Valid()
      ensures Contents() == old(Contents())[..old(top) - 2] + [BoolToInt(old(vals[top - 2]) <= old(vals[top - 1]))]
      ensures ok
    {
      var a := Pop();
      SetTop(BoolToInt(vals[top - 1] <= a));
      ok := top < StackMax;
    }

    method GreaterEqual() returns (ok: bool)
      requires Valid() && top >= 2
      modifies this, vals
      ensures Valid()
      ensures Contents() == old(Contents())[..old(top) - 2] + [BoolToInt(old(vals[top - 2]) >= old(vals[top - 1]))]
      ensures ok
    {
      var a := Pop();
      SetTop(BoolToInt(vals[top - 1] >= a));
      ok := top < StackMax;
    }
  }
}

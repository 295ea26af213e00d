// Shared vocabulary: optional values, parse results, the fixed-width
// integer types of the Go code base, and big-endian field readers.

module Common {

  datatype Option<T> = None | Some(value: T)

  /** Outcome of a parser: a value, or an error (the Go code returns `error`). */
  datatype Result<T> = Ok(value: T) | Err(reason: string)
  {
    predicate IsOk() { Ok? }
  }

  /**
   * What a Go function does when run as written: it returns a value, or it
   * panics (an index past the end of a string, slice or array).
   */
  datatype Outcome<T> = Panic | Done(value: T)

  const TWO8: int := 0x100
  const TWO16: int := 0x1_0000
  const TWO32: int := 0x1_0000_0000
  const TWO64: int := 0x1_0000_0000_0000_0000

  newtype byte = x: int | 0 <= x < 0x100
  newtype uint16 = x: int | 0 <= x < 0x1_0000
  newtype uint32 = x: int | 0 <= x < 0x1_0000_0000
  newtype uint64 = x: int | 0 <= x < 0x1_0000_0000_0000_0000
  newtype int8 = x: int | -0x80 <= x < 0x80
  newtype int16 = x: int | -0x8000 <= x < 0x8000
  newtype int32 = x: int | -0x8000_0000 <= x < 0x8000_0000

  const MinInt32: int := -0x8000_0000
  const MaxInt32: int := 0x7FFF_FFFF

  /** Go's conversion to int32 (and the wrap-around of int32 arithmetic). */
  function ToInt32(x: int): (r: int32)
    ensures (r as int - x) % TWO32 == 0
    ensures MinInt32 <= x <= MaxInt32 ==> r as int == x
  {
    var u := x % TWO32;
    assert x == TWO32 * (x / TWO32) + u;
    if u >= 0x8000_0000 then (u - TWO32) as int32 else u as int32
  }

  /** Go's conversion to int16. */
  function ToInt16(x: int): (r: int16)
    ensures (r as int - x) % TWO16 == 0
    ensures -0x8000 <= x < 0x8000 ==> r as int == x
  {
    var u := x % TWO16;
    assert x == TWO16 * (x / TWO16) + u;
    if u >= 0x8000 then (u - TWO16) as int16 else u as int16
  }

  /** An int16 value is determined by its residue modulo 2^16. */
  lemma ToInt16Unique(x: int, w: int)
    requires -0x8000 <= w < 0x8000 && (x - w) % TWO16 == 0
    ensures ToInt16(x) as int == w
  {
    var r := ToInt16(x) as int;
    assert (r - w) % TWO16 == 0 by {
      assert r - w == (r - x) + (x - w);
    }
  }

  /** Go's conversion to int8. */
  function ToInt8(x: int): (r: int8)
    ensures (r as int - x) % TWO8 == 0
    ensures -0x80 <= x < 0x80 ==> r as int == x
  {
    var u := x % TWO8;
    assert x == TWO8 * (x / TWO8) + u;
    if u >= 0x80 then (u - TWO8) as int8 else u as int8
  }

  /** Go's conversion to uint16 (keeps the low 16 bits). */
  function ToUint16(x: int): (r: uint16)
    ensures (r as int - x) % TWO16 == 0
    ensures 0 <= x < TWO16 ==> r as int == x
  {
    (x % TWO16) as uint16
  }

  /** Go's conversion to uint8 (keeps the low 8 bits). */
  function ToUint8(x: int): (r: byte)
    ensures (r as int - x) % TWO8 == 0
    ensures 0 <= x < TWO8 ==> r as int == x
  {
    (x % TWO8) as byte
  }

  function Abs(x: int): nat { if x < 0 then -x else x }

  /** Go's integer division, which truncates toward zero. */
  function QuoTrunc(a: int, b: int): int
    requires b != 0
  {
    var m := Abs(a) / Abs(b);
    if (a < 0) == (b < 0) then m else -m
  }

  lemma MulAtLeast(d: int, q: int)
    requires d >= 1 && q >= 0
    ensures d * q >= q
  {
    assert d * q == (d - 1) * q + q;
  }

  /** Euclidean division of naturals: quotient, remainder and their bounds. */
  lemma DivNat(n: int, d: int)
    requires n >= 0 && d >= 1
    ensures n == d * (n / d) + n % d && 0 <= n % d < d
    ensures 0 <= n / d <= n
  {
    var q := n / d;
    assert n == d * q + n % d;
    MulAtLeast(d, q);
  }

  /** Sign rules for a product. */
  lemma MulSigns(x: int, y: int)
    ensures (-x) * y == -(x * y) && x * (-y) == -(x * y) && (-x) * (-y) == x * y
  {
  }

  /**
   * The truncated quotient is no larger than the dividend in magnitude, and
   * its remainder is smaller than the divisor and carries the dividend's sign.
   */
  lemma QuoTruncProps(a: int, b: int)
    requires b != 0
    ensures Abs(QuoTrunc(a, b)) <= Abs(a)
    ensures Abs(a - b * QuoTrunc(a, b)) < Abs(b)
    ensures a - b * QuoTrunc(a, b) == 0 || (a - b * QuoTrunc(a, b) < 0 <==> a < 0)
  {
    var A: int, B: int := Abs(a), Abs(b);
    var m: int, r: int := A / B, A % B;
    DivNat(A, B);
    var q := QuoTrunc(a, b);
    assert Abs(q) == m;
    MulSigns(B, m);
    if a >= 0 {
      assert b * q == B * m by {
        if b < 0 { assert b == -B && q == -m; } else { assert b == B && q == m; }
      }
      assert a - b * q == r;
    } else {
      assert b * q == -(B * m) by {
        if b < 0 { assert b == -B && q == m; } else { assert b == B && q == -m; }
      }
      assert a - b * q == -r;
    }
  }

  /** Values that agree modulo 2^32 sum to values that agree modulo 2^32. */
  lemma Mod32Sum(x: int, y: int)
    requires x % TWO32 == 0 && y % TWO32 == 0
    ensures (x + y) % TWO32 == 0 && (x - y) % TWO32 == 0
  {
  }

  /** Big-endian unsigned 16-bit field at offset `i`. */
  function BE16(s: seq<byte>, i: int): (r: uint16)
    requires 0 <= i && i + 2 <= |s|
    ensures r as int / 0x100 == s[i] as int && r as int % 0x100 == s[i + 1] as int
  {
    (s[i] as int * 0x100 + s[i + 1] as int) as uint16
  }

  /** Big-endian unsigned 32-bit field at offset `i`. */
  function BE32(s: seq<byte>, i: int): (r: uint32)
    requires 0 <= i && i + 4 <= |s|
    ensures r as int / TWO16 == BE16(s, i) as int && r as int % TWO16 == BE16(s, i + 2) as int
  {
    (BE16(s, i) as int * TWO16 + BE16(s, i + 2) as int) as uint32
  }

  /** Big-endian signed 16-bit field: Go's `int16(binary.BigEndian.Uint16(..))`. */
  function BEInt16(s: seq<byte>, i: int): (r: int16)
    requires 0 <= i && i + 2 <= |s|
    ensures (r as int - BE16(s, i) as int) % TWO16 == 0
  {
    ToInt16(BE16(s, i) as int)
  }

  function Sum(xs: seq<int>): int
  {
    if xs == [] then 0 else Sum(xs[..|xs| - 1]) + xs[|xs| - 1]
  }

  lemma SumAppend(xs: seq<int>, x: int)
    ensures Sum(xs + [x]) == Sum(xs) + x
  {
    assert (xs + [x])[..|xs|] == xs;
  }

  function Pow2(n: nat): (r: nat)
    ensures r >= 1
  {
    if n == 0 then 1 else 2 * Pow2(n - 1)
  }

  /** Bitwise AND of naturals (Go's `&` on unsigned values), lowest bit first. */
  function BitAnd(a: nat, b: nat): (r: nat)
    ensures r <= a && r <= b
  {
    if a == 0 || b == 0 then 0
    else 2 * BitAnd(a / 2, b / 2) + (if a % 2 == 1 && b % 2 == 1 then 1 else 0)
  }

  /** Bitwise OR of naturals (Go's `|` on unsigned values), lowest bit first. */
  function BitOr(a: nat, b: nat): (r: nat)
    ensures a <= r && b <= r
    decreases a + b
  {
    if a == 0 then b
    else if b == 0 then a
    else 2 * BitOr(a / 2, b / 2) + (if a % 2 == 1 || b % 2 == 1 then 1 else 0)
  }

  /** AND only clears bits: the result has no bit that `a` lacks. */
  lemma {:induction false} AndAbsorbs(a: nat, b: nat)
    ensures BitAnd(BitAnd(a, b), a) == BitAnd(a, b)
    decreases a
  {
    if a != 0 && b != 0 {
      AndAbsorbs(a / 2, b / 2);
    }
  }

  /** AND of a value with itself is that value. */
  lemma {:induction false} AndSelf(a: nat)
    ensures BitAnd(a, a) == a
    decreases a
  {
    if a != 0 {
      AndSelf(a / 2);
    }
  }

  /** OR of two n-bit values is an n-bit value. */
  lemma {:induction false} OrBelow(a: nat, b: nat, n: nat)
    requires a < Pow2(n) && b < Pow2(n)
    ensures BitOr(a, b) < Pow2(n)
    decreases n
  {
    if n > 0 && a != 0 && b != 0 {
      OrBelow(a / 2, b / 2, n - 1);
    }
  }

  /** OR is commutative. */
  lemma {:induction false} OrComm(a: nat, b: nat)
    ensures BitOr(a, b) == BitOr(b, a)
    decreases a + b
  {
    if a != 0 && b != 0 {
      OrComm(a / 2, b / 2);
    }
  }

  /** OR of a value with itself is that value. */
  lemma {:induction false} OrSelf(a: nat)
    ensures BitOr(a, a) == a
    decreases a
  {
    if a != 0 {
      OrSelf(a / 2);
    }
  }

  /** OR is associative. */
  lemma {:induction false} OrAssoc(a: nat, b: nat, c: nat)
    ensures BitOr(BitOr(a, b), c) == BitOr(a, BitOr(b, c))
    decreases a + b + c
  {
    if a != 0 && b != 0 && c != 0 {
      OrAssoc(a / 2, b / 2, c / 2);
      var ab, bc := BitOr(a, b), BitOr(b, c);
      assert ab / 2 == BitOr(a / 2, b / 2) && ab % 2 == (if a % 2 == 1 || b % 2 == 1 then 1 else 0);
      assert bc / 2 == BitOr(b / 2, c / 2) && bc % 2 == (if b % 2 == 1 || c % 2 == 1 then 1 else 0);
    }
  }

  /** The lowest bit of an OR is set when it is set in either operand. */
  lemma OrLowBit(a: nat, b: nat)
    ensures BitOr(a, b) % 2 == 1 <==> a % 2 == 1 || b % 2 == 1
  {
  }

  /** Go's `|` on `uint32`. */
  function Or32(a: uint32, b: uint32): (r: uint32)
    ensures r as nat == BitOr(a as nat, b as nat)
  {
    Pow2Of32();
    OrBelow(a as nat, b as nat, 32);
    BitOr(a as nat, b as nat) as uint32
  }

  lemma Or32Comm(a: uint32, b: uint32)
    ensures Or32(a, b) == Or32(b, a)
  {
    OrComm(a as nat, b as nat);
  }

  lemma Or32Assoc(a: uint32, b: uint32, c: uint32)
    ensures Or32(Or32(a, b), c) == Or32(a, Or32(b, c))
  {
    OrAssoc(a as nat, b as nat, c as nat);
  }

  lemma Or32Self(a: uint32)
    ensures Or32(a, a) == a
  {
    OrSelf(a as nat);
  }

  lemma Or32Zero(a: uint32)
    ensures Or32(a, 0) == a && Or32(0, a) == a
  {
  }

  /** AND with 1 keeps the lowest bit. */
  lemma AndOne(a: nat)
    ensures BitAnd(a, 1) == a % 2
  {
    if a != 0 {
      assert BitAnd(a / 2, 0) == 0;
    }
  }

  /** OR with 1 sets the lowest bit and keeps the others. */
  lemma OrOne(a: nat)
    ensures BitOr(a, 1) % 2 == 1 && BitOr(a, 1) / 2 == a / 2
    ensures a % 2 == 1 ==> BitOr(a, 1) == a
  {
    if a != 0 {
      assert BitOr(a / 2, 0) == a / 2;
    }
  }

  lemma Pow2Of32()
    ensures Pow2(32) == TWO32
  {
    assert Pow2(8) == 0x100;
    assert Pow2(16) == 0x1_0000;
    assert Pow2(24) == 0x100_0000;
  }
}

/** Machine words of the interpreter and the Rust operators applied to them.
    Words are bounded integers; the bitwise operators are defined one bit at a
    time so that their meaning can be stated and proved bit by bit. */
module Bytes {

  /** Rust `u8` */
  type u8 = x: int | 0 <= x < 0x100
  /** Rust `u16` */
  type u16 = x: int | 0 <= x < 0x1_0000

  /** u8::wrapping_add */
  function WrappingAdd(a: u8, b: u8): (r: u8)
    ensures r == a + b || r == a + b - 0x100
  {
    (a + b) % 0x100
  }

  /** u8::overflowing_add: the wrapped sum and whether the true sum did not fit */
  function OverflowingAdd(a: u8, b: u8): (r: (u8, bool))
    ensures r.0 + (if r.1 then 0x100 else 0) == a + b
  {
    ((a + b) % 0x100, a + b > 0xFF)
  }

  /** u8::overflowing_sub: the wrapped difference and whether it borrowed */
  function OverflowingSub(a: u8, b: u8): (r: (u8, bool))
    ensures r.0 == a - b + (if r.1 then 0x100 else 0)
  {
    ((a - b) % 0x100, a < b)
  }

  /** u16::wrapping_add */
  function WrappingAdd16(a: u16, b: u16): (r: u16)
    ensures r == a + b || r == a + b - 0x1_0000
  {
    (a + b) % 0x1_0000
  }

  function Pow2(k: nat): (r: nat)
    ensures r >= 1
  {
    if k == 0 then 1 else 2 * Pow2(k - 1)
  }

  /** Bit `k` of `a` (bit 0 is the least significant one). */
  predicate Bit(a: nat, k: nat)
    decreases k
  {
    if k == 0 then a % 2 == 1 else Bit(a / 2, k - 1)
  }

  datatype BitOp = And | Or | Xor

  function Apply(op: BitOp, p: bool, q: bool): bool {
    match op
    case And => p && q
    case Or => p || q
    case Xor => p != q
  }

  /** The low `w` bits of `a op b`, computed one bit at a time. */
  function Bitwise(op: BitOp, a: nat, b: nat, w: nat): (r: nat)
  {
    if w == 0 then 0
    else (if Apply(op, a % 2 == 1, b % 2 == 1) then 1 else 0) + 2 * Bitwise(op, a / 2, b / 2, w - 1)
  }

  /** The Rust operators `&`, `|` and `^` on two `u8` values. */
  function ByteOp(op: BitOp, a: u8, b: u8): (r: u8)
  {
    BitwiseBound(op, a, b, 8);
    Bitwise(op, a, b, 8)
  }

  /** The result of a bitwise operator on w bits fits in w bits. */
  lemma {:induction false} BitwiseBound(op: BitOp, a: nat, b: nat, w: nat)
    ensures Bitwise(op, a, b, w) < Pow2(w)
  {
    if w > 0 {
      BitwiseBound(op, a / 2, b / 2, w - 1);
    }
  }

  /** Every bit of `a op b` below the width is `op` applied to the two operand bits. */
  lemma {:induction false} BitwiseBit(op: BitOp, a: nat, b: nat, w: nat, k: nat)
    requires k < w
    ensures Bit(Bitwise(op, a, b, w), k) == Apply(op, Bit(a, k), Bit(b, k))
    decreases k
  {
    var low := if Apply(op, a % 2 == 1, b % 2 == 1) then 1 else 0;
    var rest := Bitwise(op, a / 2, b / 2, w - 1);
    assert Bitwise(op, a, b, w) == low + 2 * rest;
    assert (low + 2 * rest) / 2 == rest;
    if k > 0 {
      BitwiseBit(op, a / 2, b / 2, w - 1, k - 1);
    }
  }

  /** `a & 0` is zero. */
  lemma {:induction false} AndZero(a: nat, w: nat)
    ensures Bitwise(And, a, 0, w) == 0
  {
    if w > 0 {
      AndZero(a / 2, w - 1);
    }
  }

  /** Masking with a single power of two keeps exactly that bit of `a`. */
  lemma {:induction false} AndSingleBit(a: nat, j: nat, w: nat)
    requires j < w
    ensures Bitwise(And, a, Pow2(j), w) == if Bit(a, j) then Pow2(j) else 0
    decreases j
  {
    if j == 0 {
      AndZero(a / 2, w - 1);
    } else {
      assert Pow2(j) % 2 == 0 && Pow2(j) / 2 == Pow2(j - 1);
      AndSingleBit(a / 2, j - 1, w - 1);
    }
  }

  /** `a >> k` */
  function Shr(a: u8, k: nat): u8 {
    if k == 0 then a else Shr(a, k - 1) / 2
  }

  /** The sprite-row test `bits & (0b1000_0000 >> col) != 0`: is column `col`
      (0 = leftmost, the most significant bit) of the row set? */
  predicate SpriteBit(bits: u8, col: nat)
    requires col < 8
  {
    ByteOp(And, bits, Shr(0x80, col)) != 0
  }

  /** `0b1000_0000 >> col` is the power of two 2^(7 - col). */
  lemma ColumnMask(col: nat)
    requires col < 8
    ensures Shr(0x80, col) == Pow2(7 - col)
  {
    assert Pow2(0) == 1 && Pow2(1) == 2 && Pow2(2) == 4 && Pow2(3) == 8;
    assert Pow2(4) == 16 && Pow2(5) == 32 && Pow2(6) == 64 && Pow2(7) == 128;
    assert Shr(0x80, 1) == 64 && Shr(0x80, 2) == 32 && Shr(0x80, 3) == 16;
    assert Shr(0x80, 4) == 8 && Shr(0x80, 5) == 4 && Shr(0x80, 6) == 2 && Shr(0x80, 7) == 1;
    if col == 0 {} else if col == 1 {} else if col == 2 {} else if col == 3 {}
    else if col == 4 {} else if col == 5 {} else if col == 6 {} else {}
  }

  /** The mask test reads bit 7 - col of the row byte. */
  lemma SpriteBitIsBit(bits: u8, col: nat)
    requires col < 8
    ensures SpriteBit(bits, col) <==> Bit(bits, 7 - col)
  {
    ColumnMask(col);
    AndSingleBit(bits, 7 - col, 8);
  }

  /** A bit of `a & mask` is set exactly where both `a` and `mask` have it, so none lies
      outside the mask. */
  lemma MaskedHasNoOtherBits(a: u8, mask: u8, k: nat)
    requires k < 8
    ensures Bit(ByteOp(And, a, mask), k) <==> Bit(a, k) && Bit(mask, k)
  {
    BitwiseBit(And, a, mask, 8, k);
  }
}

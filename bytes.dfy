/**
 * Fixed-width machine words and the bitwise operators the interpreter uses.
 * Go's `byte` and `uint16` become integer subset types; every wrap-around is
 * written out with `%`, and `&`, `|`, `^` are defined bit by bit.
 */
module Bytes {

  /** An unsigned 8-bit value (Go `byte`). */
  type byte = b: int | 0 <= b < 0x100

  /** An unsigned 16-bit value (Go `uint16`). */
  type u16 = w: int | 0 <= w < 0x1_0000

  /** A 4-bit field of an instruction word (a register number). */
  type nibble = n: int | 0 <= n < 0x10

  /** A 12-bit field of an instruction word (an address operand). */
  type addr = a: int | 0 <= a < 0x1000

  /** Addition in Go `byte` arithmetic. */
  function Add8(a: int, b: int): byte { (a + b) % 0x100 }

  /** Subtraction in Go `byte` arithmetic (Dafny's `%` never yields a negative value). */
  function Sub8(a: int, b: int): byte { (a - b) % 0x100 }

  /** Addition in Go `uint16` arithmetic. */
  function Add16(a: int, b: int): u16 { (a + b) % 0x1_0000 }

  function Pow2(n: nat): (r: nat)
    ensures r >= 1
  {
    if n == 0 then 1 else 2 * Pow2(n - 1)
  }

  datatype LogicOp = OrOp | AndOp | XorOp

  function BitOp(op: LogicOp, a: bool, b: bool): bool
  {
    match op
    case OrOp => a || b
    case AndOp => a && b
    case XorOp => a != b
  }

  /** Applies `op` to each of the low `w` bits of `a` and `b`. */
  function Bitwise(op: LogicOp, a: nat, b: nat, w: nat): (r: nat)
    requires a < Pow2(w) && b < Pow2(w)
    ensures r < Pow2(w)
    decreases w
  {
    if w == 0 then 0
    else 2 * Bitwise(op, a / 2, b / 2, w - 1) + (if BitOp(op, a % 2 == 1, b % 2 == 1) then 1 else 0)
  }

  /** Go `a | b` on bytes. */
  function Or8(a: byte, b: byte): byte { Bitwise(OrOp, a, b, 8) }

  /** Go `a & b` on bytes. */
  function And8(a: byte, b: byte): byte { Bitwise(AndOp, a, b, 8) }

  /** Go `a ^ b` on bytes. */
  function Xor8(a: byte, b: byte): byte { Bitwise(XorOp, a, b, 8) }

  /** The complement `^n` of a byte. */
  function Not8(n: byte): byte { 0xFF - n }

  /** Flips the lowest bit of a byte: Go `g ^ 1` (see ToggleIsXorOne). */
  function Toggle(g: byte): byte
  {
    if g % 2 == 0 then g + 1 else g - 1
  }

  /** The sprite column mask `0x80 >> j`. */
  function Mask(j: nat): byte
    requires j < 8
  {
    [0x80, 0x40, 0x20, 0x10, 0x08, 0x04, 0x02, 0x01][j]
  }

  lemma {:induction false} AndZero(a: nat, w: nat)
    requires a < Pow2(w)
    ensures Bitwise(AndOp, a, 0, w) == 0
    decreases w
  {
    if w > 0 {
      AndZero(a / 2, w - 1);
    }
  }

  lemma {:induction false} XorZero(a: nat, w: nat)
    requires a < Pow2(w)
    ensures Bitwise(XorOp, a, 0, w) == a
    decreases w
  {
    if w > 0 {
      XorZero(a / 2, w - 1);
    }
  }

  /** Masking with a value and then with its complement leaves no bit set. */
  lemma {:induction false} AndComplement(a: nat, n: nat, w: nat)
    requires a < Pow2(w) && n < Pow2(w)
    ensures Bitwise(AndOp, Bitwise(AndOp, a, n, w), Pow2(w) - 1 - n, w) == 0
    decreases w
  {
    if w > 0 {
      AndComplement(a / 2, n / 2, w - 1);
      assert (Pow2(w) - 1 - n) / 2 == Pow2(w - 1) - 1 - n / 2;
      assert Bitwise(AndOp, a, n, w) / 2 == Bitwise(AndOp, a / 2, n / 2, w - 1);
    }
  }

  /** `r & nn` has no bit outside `nn`: `(r & nn) & ^nn == 0`. */
  lemma AndMaskClearsComplement(r: byte, nn: byte)
    ensures And8(And8(r, nn), Not8(nn)) == 0
  {
    AndComplement(r, nn, 8);
  }

  /** `v & 0x01` is the lowest bit of `v`. */
  lemma AndLowBit(v: byte)
    ensures And8(v, 0x01) == v % 2
  {
    AndZero(v / 2, 7);
  }

  lemma {:induction false} AndTopBitWidth(v: nat, w: nat)
    requires w >= 1 && v < Pow2(w)
    ensures Bitwise(AndOp, v, Pow2(w - 1), w) == if v >= Pow2(w - 1) then Pow2(w - 1) else 0
    decreases w
  {
    if w == 1 {
      assert Bitwise(AndOp, v / 2, 0, 0) == 0;
    } else {
      AndTopBitWidth(v / 2, w - 1);
      assert Pow2(w - 1) / 2 == Pow2(w - 2);
      assert Pow2(w - 1) % 2 == 0;
    }
  }

  /** `v & 0x80` is either 0x80 or 0, by the top bit of `v`. */
  lemma AndTopBit(v: byte)
    ensures And8(v, 0x80) == if v >= 0x80 then 0x80 else 0
  {
    AndTopBitWidth(v, 8);
  }

  /** Toggle is exactly XOR with 1. */
  lemma ToggleIsXorOne(g: byte)
    ensures Xor8(g, 1) == Toggle(g)
  {
    XorZero(g / 2, 7);
    assert Pow2(8) == 2 * Pow2(7);
  }

  /** Toggling twice gives back the original value and toggling keeps a pixel in {0, 1}. */
  lemma ToggleInvolutive(g: byte)
    ensures Toggle(Toggle(g)) == g
    ensures g <= 1 ==> Toggle(g) <= 1 && Toggle(g) != g
  {
  }
}

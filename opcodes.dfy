/**
 * The instruction set of internal/chip8/opcodes.go as state transitions on
 * MachineState: one function per `op0x....` handler, the operand fields, the
 * decoder behind `parseOpcode` and its dispatch.
 */
module Opcodes {
  import opened Bytes
  import opened Wrappers
  import opened Machine

  /** The program counter advanced by `k` bytes, wrapping like a Go `uint16`. */
  function Advance(m: MachineState, k: nat): u16
  {
    Add16(m.pc, k)
  }

  /** Registers `a` and `b` agree everywhere except possibly at `x` and at VF. */
  predicate SameRegistersExcept(a: seq<byte>, b: seq<byte>, x: nibble)
    requires |a| == RegisterCount && |b| == RegisterCount
  {
    forall k :: 0 <= k < RegisterCount && k != x && k != VF ==> a[k] == b[k]
  }

  // ----- 0x0, 0x1, 0x2: screen, return, jump, call -----

  /** 00E0 (`op0x00E0`): clear the framebuffer. */
  function ClearScreen(m: MachineState): (r: MachineState)
    requires WellFormed(m)
    ensures WellFormed(r) && PixelsBinary(r.gfx)
    ensures forall k :: 0 <= k < ScreenSize ==> r.gfx[k] == 0
    ensures r.pc == Advance(m, 2) && r.(gfx := m.gfx, pc := m.pc) == m
  {
    m.(gfx := seq(ScreenSize, _ => 0), pc := Advance(m, 2))
  }

  /** 00EE (`op0x00EE`): return to the address on top of the stack plus 2; sp is a Go `uint16`. */
  function Return(m: MachineState): (r: MachineState)
    requires WellFormed(m) && m.sp < StackDepth
    ensures WellFormed(r)
    ensures r.pc == Add16(m.stack[m.sp], 2)
    ensures r.sp == if m.sp == 0 then 0xFFFF else m.sp - 1
    ensures r.(pc := m.pc, sp := m.sp) == m
  {
    m.(pc := Add16(m.stack[m.sp], 2), sp := (m.sp - 1) % 0x1_0000)
  }

  /** 1NNN (`op0x1000`): jump to nnn. */
  function Jump(m: MachineState, nnn: addr): (r: MachineState)
    ensures r.pc == nnn && r.(pc := m.pc) == m
  {
    m.(pc := nnn)
  }

  /** The stack slot a call writes: sp is incremented first. */
  function CallSlot(m: MachineState): u16
  {
    Add16(m.sp, 1)
  }

  /** 2NNN (`op0x2000`): increment sp, save pc in `stack[sp]`, jump to nnn. */
  function Call(m: MachineState, nnn: addr): (r: MachineState)
    requires WellFormed(m) && CallSlot(m) < StackDepth
    ensures WellFormed(r) && r.sp == CallSlot(m)
    ensures m.sp < StackDepth - 1 ==> r.sp == m.sp + 1 && r.sp >= 1 && r.stack[0] == m.stack[0]
    ensures r.stack[r.sp] == m.pc && r.pc == nnn
    ensures forall k :: 0 <= k < StackDepth && k != r.sp ==> r.stack[k] == m.stack[k]
    ensures r.(sp := m.sp, stack := m.stack, pc := m.pc) == m
  {
    var top := CallSlot(m);
    m.(sp := top, stack := m.stack[top := m.pc], pc := nnn)
  }

  // ----- 0x3, 0x4, 0x5, 0x9: conditional skips -----

  /** 3XNN (`op0x3000`): skip the next instruction if Vx == nn. */
  function SkipIfEqual(m: MachineState, x: nibble, nn: byte): (r: MachineState)
    requires WellFormed(m)
    ensures r.pc == Advance(m, 4) || r.pc == Advance(m, 2)
    ensures r.pc == Advance(m, 4) <==> m.registers[x] == nn
    ensures r.(pc := m.pc) == m
  {
    if m.registers[x] == nn then m.(pc := Advance(m, 4)) else m.(pc := Advance(m, 2))
  }

  /** 4XNN (`op0x4000`): skip the next instruction if Vx != nn. */
  function SkipIfNotEqual(m: MachineState, x: nibble, nn: byte): (r: MachineState)
    requires WellFormed(m)
    ensures r.pc == Advance(m, 4) || r.pc == Advance(m, 2)
    ensures r.pc == Advance(m, 4) <==> m.registers[x] != nn
    ensures r.(pc := m.pc) == m
  {
    if m.registers[x] != nn then m.(pc := Advance(m, 4)) else m.(pc := Advance(m, 2))
  }

  /** 5XY? (`op0x5000`): skip the next instruction if Vx == Vy. */
  function SkipIfRegistersEqual(m: MachineState, x: nibble, y: nibble): (r: MachineState)
    requires WellFormed(m)
    ensures r.pc == Advance(m, 4) || r.pc == Advance(m, 2)
    ensures r.pc == Advance(m, 4) <==> m.registers[x] == m.registers[y]
    ensures r.(pc := m.pc) == m
  {
    if m.registers[x] == m.registers[y] then m.(pc := Advance(m, 4)) else m.(pc := Advance(m, 2))
  }

  /** 9XY? (`op0x9000`): skip the next instruction if Vx != Vy. */
  function SkipIfRegistersNotEqual(m: MachineState, x: nibble, y: nibble): (r: MachineState)
    requires WellFormed(m)
    ensures r.pc == Advance(m, 4) || r.pc == Advance(m, 2)
    ensures r.pc == Advance(m, 4) <==> m.registers[x] != m.registers[y]
    ensures r.(pc := m.pc) == m
  {
    if m.registers[x] != m.registers[y] then m.(pc := Advance(m, 4)) else m.(pc := Advance(m, 2))
  }

  // ----- 0x6, 0x7: immediate loads -----

  /** 6XNN (`op0x6000`): Vx = nn. */
  function LoadByte(m: MachineState, x: nibble, nn: byte): (r: MachineState)
    requires WellFormed(m)
    ensures WellFormed(r) && r.registers[x] == nn
    ensures forall k :: 0 <= k < RegisterCount && k != x ==> r.registers[k] == m.registers[k]
    ensures r.pc == Advance(m, 2) && r.(registers := m.registers, pc := m.pc) == m
  {
    m.(registers := m.registers[x := nn], pc := Advance(m, 2))
  }

  /** 7XNN (`op0x7000`): Vx += nn modulo 256; VF is not touched (unless x is VF). */
  function AddByte(m: MachineState, x: nibble, nn: byte): (r: MachineState)
    requires WellFormed(m)
    ensures WellFormed(r) && r.registers[x] == ((m.registers[x] as int) + nn) % 0x100
    ensures forall k :: 0 <= k < RegisterCount && k != x ==> r.registers[k] == m.registers[k]
    ensures r.pc == Advance(m, 2) && r.(registers := m.registers, pc := m.pc) == m
  {
    m.(registers := m.registers[x := Add8(m.registers[x], nn)], pc := Advance(m, 2))
  }

  // ----- 0x8: register to register -----

  /** 8XY0 (`op0x0000`): Vx = Vy. */
  function Move(m: MachineState, x: nibble, y: nibble): (r: MachineState)
    requires WellFormed(m)
    ensures WellFormed(r) && r.registers[x] == m.registers[y]
    ensures forall k :: 0 <= k < RegisterCount && k != x ==> r.registers[k] == m.registers[k]
    ensures r.pc == Advance(m, 2) && r.(registers := m.registers, pc := m.pc) == m
  {
    m.(registers := m.registers[x := m.registers[y]], pc := Advance(m, 2))
  }

  /** 8XY1 (`op0x0001`): Vx |= Vy. */
  function Or(m: MachineState, x: nibble, y: nibble): (r: MachineState)
    requires WellFormed(m)
    ensures WellFormed(r) && r.registers[x] == Or8(m.registers[x], m.registers[y])
    ensures forall k :: 0 <= k < RegisterCount && k != x ==> r.registers[k] == m.registers[k]
    ensures r.pc == Advance(m, 2) && r.(registers := m.registers, pc := m.pc) == m
  {
    m.(registers := m.registers[x := Or8(m.registers[x], m.registers[y])], pc := Advance(m, 2))
  }

  /** 8XY2 (`op0x0002`): Vx &= Vy. */
  function And(m: MachineState, x: nibble, y: nibble): (r: MachineState)
    requires WellFormed(m)
    ensures WellFormed(r) && r.registers[x] == And8(m.registers[x], m.registers[y])
    ensures forall k :: 0 <= k < RegisterCount && k != x ==> r.registers[k] == m.registers[k]
    ensures r.pc == Advance(m, 2) && r.(registers := m.registers, pc := m.pc) == m
  {
    m.(registers := m.registers[x := And8(m.registers[x], m.registers[y])], pc := Advance(m, 2))
  }

  /** 8XY3 (`op0x0003`): Vx ^= Vy. */
  function Xor(m: MachineState, x: nibble, y: nibble): (r: MachineState)
    requires WellFormed(m)
    ensures WellFormed(r) && r.registers[x] == Xor8(m.registers[x], m.registers[y])
    ensures forall k :: 0 <= k < RegisterCount && k != x ==> r.registers[k] == m.registers[k]
    ensures r.pc == Advance(m, 2) && r.(registers := m.registers, pc := m.pc) == m
  {
    m.(registers := m.registers[x := Xor8(m.registers[x], m.registers[y])], pc := Advance(m, 2))
  }

  /**
   * 8XY4 (`op0x0004`): VF is set to the carry first, then Vx += Vy is computed
   * from the registers as they are after that write.
   */
  function AddRegisters(m: MachineState, x: nibble, y: nibble): (r: MachineState)
    requires WellFormed(m)
    ensures WellFormed(r)
    ensures var vx, vy: int := m.registers[x], m.registers[y];
      var carry := if vx + vy > 0xFF then 1 else 0;
      && (x != VF ==> r.registers[VF] == carry)
      && (x != VF && y != VF ==> r.registers[x] == (vx + vy) % 0x100)
      && (x != VF && y == VF ==> r.registers[x] == (vx + carry) % 0x100)
      && (x == VF && y != VF ==> r.registers[VF] == (carry + vy) % 0x100)
      && (x == VF && y == VF ==> r.registers[VF] == 2 * carry)
    ensures SameRegistersExcept(r.registers, m.registers, x)
    ensures r.pc == Advance(m, 2) && r.(registers := m.registers, pc := m.pc) == m
  {
    var flag := if m.registers[y] > 0xFF - m.registers[x] then 1 else 0;
    var regs := m.registers[VF := flag];
    m.(registers := regs[x := Add8(regs[x], regs[y])], pc := Advance(m, 2))
  }

  /**
   * 8XY5 (`op0x0005`): VF is set to NOT borrow first, then Vx -= Vy is computed
   * from the registers as they are after that write.
   */
  function SubRegisters(m: MachineState, x: nibble, y: nibble): (r: MachineState)
    requires WellFormed(m)
    ensures WellFormed(r)
    ensures var vx, vy: int := m.registers[x], m.registers[y];
      var noBorrow := if vy > vx then 0 else 1;
      && (x != VF ==> r.registers[VF] == noBorrow)
      && (x != VF && y != VF ==> r.registers[x] == (vx - vy) % 0x100)
      && (x != VF && y == VF ==> r.registers[x] == (vx - noBorrow) % 0x100)
      && (x == VF && y != VF ==> r.registers[VF] == (noBorrow - vy) % 0x100)
      && (x == VF && y == VF ==> r.registers[VF] == 0)
    ensures SameRegistersExcept(r.registers, m.registers, x)
    ensures r.pc == Advance(m, 2) && r.(registers := m.registers, pc := m.pc) == m
  {
    var flag := if m.registers[y] > m.registers[x] then 0 else 1;
    var regs := m.registers[VF := flag];
    m.(registers := regs[x := Sub8(regs[x], regs[y])], pc := Advance(m, 2))
  }

  /**
   * 8XY6 (`op0x0006`): Vx = Vy >> 1, then VF = Vy & 1 with Vy read again
   * after the first write (so 8XX6 sees the shifted value).
   */
  function ShiftRight(m: MachineState, x: nibble, y: nibble): (r: MachineState)
    requires WellFormed(m)
    ensures WellFormed(r)
    ensures var vy := m.registers[y];
      && (x != VF ==> r.registers[x] == vy / 2)
      && (x != VF && x != y ==> r.registers[VF] == vy % 2)
      && (x != VF && x == y ==> r.registers[VF] == (vy / 2) % 2)
      && (x == VF ==> r.registers[VF] == if y == VF then (vy / 2) % 2 else vy % 2)
    ensures SameRegistersExcept(r.registers, m.registers, x)
    ensures r.pc == Advance(m, 2) && r.(registers := m.registers, pc := m.pc) == m
  {
    var regs := m.registers[x := m.registers[y] / 2];
    var low := And8(regs[y], 0x01);
    AndLowBit(regs[y]);
    assert low == regs[y] % 2;
    m.(registers := regs[VF := low], pc := Advance(m, 2))
  }

  /**
   * 8XY7 (`op0x0007_1`): VF is set to NOT borrow first, then Vx = Vy - Vx is
   * computed from the registers as they are after that write.
   */
  function SubReverse(m: MachineState, x: nibble, y: nibble): (r: MachineState)
    requires WellFormed(m)
    ensures WellFormed(r)
    ensures var vx, vy: int := m.registers[x], m.registers[y];
      var noBorrow := if vx > vy then 0 else 1;
      && (x != VF ==> r.registers[VF] == noBorrow)
      && (x != VF && y != VF ==> r.registers[x] == (vy - vx) % 0x100)
      && (x != VF && y == VF ==> r.registers[x] == (noBorrow - vx) % 0x100)
      && (x == VF && y != VF ==> r.registers[VF] == (vy - noBorrow) % 0x100)
      && (x == VF && y == VF ==> r.registers[VF] == 0)
    ensures SameRegistersExcept(r.registers, m.registers, x)
    ensures r.pc == Advance(m, 2) && r.(registers := m.registers, pc := m.pc) == m
  {
    var flag := if m.registers[x] > m.registers[y] then 0 else 1;
    var regs := m.registers[VF := flag];
    m.(registers := regs[x := Sub8(regs[y], regs[x])], pc := Advance(m, 2))
  }

  /**
   * 8XYE (`op0x000E`): Vx = Vy << 1 (truncated to a byte), then VF = Vy & 0x80
   * with Vy read again after the first write; VF is 0 or 0x80, never 1.
   */
  function ShiftLeft(m: MachineState, x: nibble, y: nibble): (r: MachineState)
    requires WellFormed(m)
    ensures WellFormed(r)
    ensures var vy: int := m.registers[y];
      && (x != VF ==> r.registers[x] == (2 * vy) % 0x100)
      && (x != y ==> r.registers[VF] == if vy >= 0x80 then 0x80 else 0)
      && (x == y ==> r.registers[VF] == if (2 * vy) % 0x100 >= 0x80 then 0x80 else 0)
      && (r.registers[VF] == 0 || r.registers[VF] == 0x80)
    ensures SameRegistersExcept(r.registers, m.registers, x)
    ensures r.pc == Advance(m, 2) && r.(registers := m.registers, pc := m.pc) == m
  {
    var vy := m.registers[y];
    var regs := m.registers[x := Add8(vy, vy)];
    assert regs[y] == if x == y then Add8(vy, vy) else vy;
    var top := And8(regs[y], 0x80);
    AndTopBit(regs[y]);
    m.(registers := regs[VF := top], pc := Advance(m, 2))
  }

  // ----- 0xA, 0xB, 0xC, 0xD -----

  /** ANNN (`op0xA000`): I = nnn. */
  function SetIndex(m: MachineState, nnn: addr): (r: MachineState)
    ensures r.i == nnn && r.pc == Advance(m, 2) && r.(i := m.i, pc := m.pc) == m
  {
    m.(i := nnn, pc := Advance(m, 2))
  }

  /** BNNN (`op0xB000`): pc = nnn + V0, and then pc += 2; the sum never wraps. */
  function JumpOffset(m: MachineState, nnn: addr): (r: MachineState)
    requires WellFormed(m)
    ensures r.pc == nnn + m.registers[0] + 2
    ensures r.(pc := m.pc) == m
  {
    var target := Add16(nnn, m.registers[0]);
    m.(pc := Add16(target, 2))
  }

  /** CXNN (`op0xC000`): Vx = rnd & nn, for the random byte `rnd`. */
  function RandomByte(m: MachineState, x: nibble, nn: byte, rnd: byte): (r: MachineState)
    requires WellFormed(m)
    ensures WellFormed(r)
    ensures r.registers[x] == And8(rnd, nn)
    ensures forall k :: 0 <= k < RegisterCount && k != x ==> r.registers[k] == m.registers[k]
    ensures r.pc == Advance(m, 2) && r.(registers := m.registers, pc := m.pc) == m
  {
    m.(registers := m.registers[x := And8(rnd, nn)], pc := Advance(m, 2))
  }

  /** Whatever the random byte, CXNN sets no bit of Vx outside the mask nn. */
  lemma RandomByteWithinMask(m: MachineState, x: nibble, nn: byte, rnd: byte)
    requires WellFormed(m)
    ensures And8(RandomByte(m, x, nn, rnd).registers[x], Not8(nn)) == 0
  {
    AndMaskClearsComplement(rnd, nn);
  }

  /** DXYN (`op0xD000`): draw the sprite at (Vx, Vy); the height is taken from the opcode. */
  function Draw(m: MachineState, x: nibble, y: nibble): (r: MachineState)
    requires WellFormed(m) && DrawDefined(m)
    ensures WellFormed(r) && r.drawFlag
    ensures r.pc == Advance(m, 2)
    ensures r == DrawSprite(m, m.registers[x], m.registers[y]).(pc := r.pc)
  {
    DrawSprite(m, m.registers[x], m.registers[y]).(pc := Advance(m, 2))
  }

  // ----- 0xE: keypad skips -----

  /** EX9E (`op0x009E`): if key Vx is down (== 1) skip and release it, otherwise continue. */
  function SkipIfKey(m: MachineState, x: nibble): (r: MachineState)
    requires WellFormed(m) && m.registers[x] < KeyCount
    ensures WellFormed(r)
    ensures r.pc == Advance(m, 4) <==> m.keypad[m.registers[x]] == 1
    ensures r.keypad[m.registers[x]] == 0 <==> m.keypad[m.registers[x]] <= 1
    ensures m.keypad[m.registers[x]] == 1 ==> r == m.(pc := r.pc, keypad := m.keypad[m.registers[x] := 0])
    ensures m.keypad[m.registers[x]] != 1 ==> r == m.(pc := Advance(m, 2))
  {
    if m.keypad[m.registers[x]] == 1 then
      m.(pc := Advance(m, 4), keypad := m.keypad[m.registers[x] := 0])
    else
      m.(pc := Advance(m, 2))
  }

  /** EXA1 (`op0x00A1`): if key Vx is up (== 0) skip, otherwise release it and continue. */
  function SkipIfNotKey(m: MachineState, x: nibble): (r: MachineState)
    requires WellFormed(m) && m.registers[x] < KeyCount
    ensures WellFormed(r)
    ensures r.pc == Advance(m, 4) <==> m.keypad[m.registers[x]] == 0
    ensures r.keypad[m.registers[x]] == 0
    ensures m.keypad[m.registers[x]] == 0 ==> r == m.(pc := r.pc)
    ensures m.keypad[m.registers[x]] != 0 ==> r == m.(pc := Advance(m, 2), keypad := m.keypad[m.registers[x] := 0])
  {
    if m.keypad[m.registers[x]] == 0 then
      m.(pc := Advance(m, 4))
    else
      m.(keypad := m.keypad[m.registers[x] := 0], pc := Advance(m, 2))
  }

  // ----- 0xF: timers, keypad wait, index, memory -----

  /** FX07 (`op0x0007_2`): Vx = delay timer. */
  function LoadDelay(m: MachineState, x: nibble): (r: MachineState)
    requires WellFormed(m)
    ensures WellFormed(r) && r.registers[x] == m.dt
    ensures forall k :: 0 <= k < RegisterCount && k != x ==> r.registers[k] == m.registers[k]
    ensures r.pc == Advance(m, 2) && r.(registers := m.registers, pc := m.pc) == m
  {
    m.(registers := m.registers[x := m.dt], pc := Advance(m, 2))
  }

  /** The index of the first key that is not 0, or `|keys|` when there is none. */
  function FirstPressed(keys: seq<byte>): (k: nat)
    ensures k <= |keys|
    ensures k < |keys| ==> keys[k] != 0
    ensures forall j :: 0 <= j < k ==> keys[j] == 0
  {
    if keys == [] then 0
    else if keys[0] != 0 then 0
    else 1 + FirstPressed(keys[1..])
  }

  /** FX0A cannot index the keypad out of range: either a key is down or Vx is a key number. */
  predicate WaitKeyDefined(m: MachineState, x: nibble)
    requires WellFormed(m)
  {
    FirstPressed(m.keypad) < KeyCount || m.registers[x] < KeyCount
  }

  /**
   * FX0A (`op0x000A`): scan the keypad; on the first key down, Vx = its index
   * and pc += 2. In every case `keypad[Vx]` is then cleared. With no key down
   * the state is unchanged, so the instruction is re-executed next cycle.
   */
  function WaitKey(m: MachineState, x: nibble): (r: MachineState)
    requires WellFormed(m) && WaitKeyDefined(m, x)
    ensures WellFormed(r)
    ensures FirstPressed(m.keypad) == KeyCount ==> r == m
    ensures var k := FirstPressed(m.keypad);
      k < KeyCount ==>
        && m.keypad[k] != 0 && (forall j :: 0 <= j < k ==> m.keypad[j] == 0)
        && r.registers == m.registers[x := k]
        && r.keypad == m.keypad[k := 0]
        && r.pc == Advance(m, 2)
        && r.(registers := m.registers, keypad := m.keypad, pc := m.pc) == m
  {
    var k := FirstPressed(m.keypad);
    var m1 := if k < KeyCount then m.(registers := m.registers[x := k], pc := Advance(m, 2)) else m;
    m1.(keypad := m1.keypad[m1.registers[x] := 0])
  }

  /** FX15 (`op0x0015`): delay timer = Vx. */
  function SetDelay(m: MachineState, x: nibble): (r: MachineState)
    requires WellFormed(m)
    ensures r.dt == m.registers[x] && r.pc == Advance(m, 2) && r.(dt := m.dt, pc := m.pc) == m
  {
    m.(dt := m.registers[x], pc := Advance(m, 2))
  }

  /** FX18 (`op0x0018`): sound timer = Vx. */
  function SetSound(m: MachineState, x: nibble): (r: MachineState)
    requires WellFormed(m)
    ensures r.st == m.registers[x] && r.pc == Advance(m, 2) && r.(st := m.st, pc := m.pc) == m
  {
    m.(st := m.registers[x], pc := Advance(m, 2))
  }

  /** FX1E (`op0x001E`): I += Vx, wrapping like a Go `uint16`; VF is not touched. */
  function AddIndex(m: MachineState, x: nibble): (r: MachineState)
    requires WellFormed(m)
    ensures r.i == ((m.i as int) + m.registers[x]) % 0x1_0000
    ensures r.pc == Advance(m, 2) && r.(i := m.i, pc := m.pc) == m
  {
    m.(i := Add16(m.i, m.registers[x]), pc := Advance(m, 2))
  }

  /** FX29 (`op0x0029`): I = Vx * 5, the glyph offset; the product never wraps. */
  function FontGlyph(m: MachineState, x: nibble): (r: MachineState)
    requires WellFormed(m)
    ensures r.i == 5 * (m.registers[x] as int) && r.i < 0x500
    ensures r.pc == Advance(m, 2) && r.(i := m.i, pc := m.pc) == m
  {
    m.(i := ((m.registers[x] as int) * 5) % 0x1_0000, pc := Advance(m, 2))
  }

  /** FX33 (`op0x0033`): hundreds, tens and ones digit of Vx into memory[I], [I+1], [I+2]. */
  function StoreBcd(m: MachineState, x: nibble): (r: MachineState)
    requires WellFormed(m) && m.i + 2 < MemorySize
    ensures WellFormed(r)
    ensures r.memory[m.i] < 10 && r.memory[m.i + 1] < 10 && r.memory[m.i + 2] < 10
    ensures 100 * (r.memory[m.i] as int) + 10 * (r.memory[m.i + 1] as int) + r.memory[m.i + 2] == m.registers[x]
    ensures forall k :: 0 <= k < MemorySize && !(m.i <= k <= m.i + 2) ==> r.memory[k] == m.memory[k]
    ensures r.pc == Advance(m, 2) && r.(memory := m.memory, pc := m.pc) == m
  {
    var v := m.registers[x];
    BcdDigits(v);
    m.(memory := m.memory[m.i := v / 100][m.i + 1 := (v / 10) % 10][m.i + 2 := (v % 100) % 10],
       pc := Advance(m, 2))
  }

  /** The digits FX33 extracts are decimal digits and spell out the value. */
  lemma BcdDigits(v: byte)
    ensures v / 100 < 10 && (v / 10) % 10 < 10 && (v % 100) % 10 < 10
    ensures 100 * (v / 100) + 10 * ((v / 10) % 10) + (v % 100) % 10 == v
  {
  }

  /** FX55 (`op0x0055`): memory[I + k] = Vk for k = 0..x. */
  function StoreRegisters(m: MachineState, x: nibble): (r: MachineState)
    requires WellFormed(m) && m.i + x < MemorySize
    ensures WellFormed(r)
    ensures forall k :: 0 <= k < MemorySize ==>
      r.memory[k] == if m.i <= k <= m.i + x then m.registers[k - m.i] else m.memory[k]
    ensures r.pc == Advance(m, 2) && r.(memory := m.memory, pc := m.pc) == m
  {
    m.(memory := m.memory[..m.i] + m.registers[..x + 1] + m.memory[m.i + x + 1..], pc := Advance(m, 2))
  }

  /** FX65 (`op0x0065`): Vk = memory[I + k] for k = 0..x; higher registers are kept. */
  function LoadRegisters(m: MachineState, x: nibble): (r: MachineState)
    requires WellFormed(m) && m.i + x < MemorySize
    ensures WellFormed(r)
    ensures forall k :: 0 <= k < RegisterCount ==>
      r.registers[k] == if k <= x then m.memory[m.i + k] else m.registers[k]
    ensures r.pc == Advance(m, 2) && r.(registers := m.registers, pc := m.pc) == m
  {
    m.(registers := m.memory[m.i..m.i + x + 1] + m.registers[x + 1..], pc := Advance(m, 2))
  }

  // ----- decoding -----

  /** The operand fields `parseOpcode` extracts from an instruction word. */
  datatype Operands = Operands(x: nibble, y: nibble, nn: byte, nnn: addr)

  /**
   * `x = (w & 0x0F00) >> 8`, `y = (w & 0x00F0) >> 4`, `nn = w & 0x00FF`,
   * `nnn = w & 0x0FFF`: bits 8-11, bits 4-7, the low byte and the low 12 bits.
   */
  function Fields(w: u16): (f: Operands)
    ensures w == (w / 0x1000) * 0x1000 + f.nnn
    ensures f.nnn == (f.x as int) * 0x100 + f.nn
    ensures f.nn == (f.y as int) * 0x10 + w % 0x10
  {
    FieldsSplit(w);
    Operands((w / 0x100) % 0x10, (w / 0x10) % 0x10, w % 0x100, w % 0x1000)
  }

  /** The low 12 bits are bits 8-11 above the low byte, and the low byte is bits 4-7 above the low nibble. */
  lemma FieldsSplit(w: u16)
    ensures w % 0x1000 == ((w / 0x100) % 0x10) * 0x100 + w % 0x100
    ensures w % 0x100 == ((w / 0x10) % 0x10) * 0x10 + w % 0x10
  {
    var q := w / 0x100;
    assert w == (q / 0x10) * 0x1000 + ((q % 0x10) * 0x100 + w % 0x100);
    var p := w / 0x10;
    assert w == (p / 0x10) * 0x100 + ((p % 0x10) * 0x10 + w % 0x10);
  }

  /** The decoded form of an instruction word, one constructor per handler. */
  datatype Instr =
    | Op00E0 | Op00EE
    | Op1NNN(nnn: addr) | Op2NNN(nnn: addr)
    | Op3XNN(x: nibble, nn: byte) | Op4XNN(x: nibble, nn: byte) | Op5XY0(x: nibble, y: nibble)
    | Op6XNN(x: nibble, nn: byte) | Op7XNN(x: nibble, nn: byte)
    | Op8XY0(x: nibble, y: nibble) | Op8XY1(x: nibble, y: nibble) | Op8XY2(x: nibble, y: nibble)
    | Op8XY3(x: nibble, y: nibble) | Op8XY4(x: nibble, y: nibble) | Op8XY5(x: nibble, y: nibble)
    | Op8XY6(x: nibble, y: nibble) | Op8XY7(x: nibble, y: nibble) | Op8XYE(x: nibble, y: nibble)
    | Op9XY0(x: nibble, y: nibble)
    | OpANNN(nnn: addr) | OpBNNN(nnn: addr) | OpCXNN(x: nibble, nn: byte) | OpDXYN(x: nibble, y: nibble, n: nibble)
    | OpEX9E(x: nibble) | OpEXA1(x: nibble)
    | OpFX07(x: nibble) | OpFX0A(x: nibble) | OpFX15(x: nibble) | OpFX18(x: nibble) | OpFX1E(x: nibble)
    | OpFX29(x: nibble) | OpFX33(x: nibble) | OpFX55(x: nibble) | OpFX65(x: nibble)

  /** The error `unknownOp` reports, with the part of the word it is given. */
  datatype UnknownOpcode = UnknownOpcode(code: u16)

  /**
   * The `parseOpcode` switch on the class nibble of `w`: exactly the undefined
   * words are rejected, each with the code `unknownOp` is given.
   */
  function Decode(w: u16): (r: Result<Instr, UnknownOpcode>)
    ensures r.Err? <==> UndefinedWord(w)
    ensures r.Err? ==> r.error == UnknownOpcode(ReportedCode(w))
  {
    DecodeClass(w / 0x1000, Fields(w), w % 0x10)
  }

  /**
   * The outer switch, given the class nibble `c`, the operand fields and the
   * low nibble `n`: the instruction has class `c`, and only the classes with
   * an inner switch can reject.
   */
  function DecodeClass(c: nibble, f: Operands, n: nibble): (r: Result<Instr, UnknownOpcode>)
    ensures r.Ok? ==> EncodeFields(r.value).0 == c
    ensures r.Err? ==> c == 0x0 || c == 0x8 || c == 0xE || c == 0xF
  {
    match c
    case 0x0 => DecodeSystem(f.nn)
    case 0x1 => Ok(Op1NNN(f.nnn))
    case 0x2 => Ok(Op2NNN(f.nnn))
    case 0x3 => Ok(Op3XNN(f.x, f.nn))
    case 0x4 => Ok(Op4XNN(f.x, f.nn))
    case 0x5 => Ok(Op5XY0(f.x, f.y))
    case 0x6 => Ok(Op6XNN(f.x, f.nn))
    case 0x7 => Ok(Op7XNN(f.x, f.nn))
    case 0x8 => DecodeArithmetic(f.x, f.y, n)
    case 0x9 => Ok(Op9XY0(f.x, f.y))
    case 0xA => Ok(OpANNN(f.nnn))
    case 0xB => Ok(OpBNNN(f.nnn))
    case 0xC => Ok(OpCXNN(f.x, f.nn))
    case 0xD => Ok(OpDXYN(f.x, f.y, n))
    case 0xE => DecodeKeys(f.x, f.nn)
    case _ => DecodeMisc(f.x, f.nn)
  }

  /** Class 0x0, switched on the low byte; the instruction's canonical low byte is `nn`. */
  function DecodeSystem(nn: byte): (r: Result<Instr, UnknownOpcode>)
    ensures r.Err? <==> nn !in {0xE0, 0xEE}
    ensures r.Err? ==> r.error == UnknownOpcode(nn)
    ensures r.Ok? ==> IsSystem(r.value) && EncodeFields(r.value) == (0x0, 0x0, nn / 0x10, nn % 0x10)
  {
    if nn == 0xE0 then Ok(Op00E0)
    else if nn == 0xEE then Ok(Op00EE)
    else Err(UnknownOpcode(nn))
  }

  /** Class 0x8, switched on the low nibble; the instruction's canonical word has nibbles 8, x, y, n. */
  function DecodeArithmetic(x: nibble, y: nibble, n: nibble): (r: Result<Instr, UnknownOpcode>)
    ensures r.Err? <==> 0x8 <= n && n != 0xE
    ensures r.Err? ==> r.error == UnknownOpcode(n)
    ensures r.Ok? ==> IsArithmetic(r.value) && EncodeFields(r.value) == (0x8, x, y, n)
  {
    match n
    case 0x0 => Ok(Op8XY0(x, y))
    case 0x1 => Ok(Op8XY1(x, y))
    case 0x2 => Ok(Op8XY2(x, y))
    case 0x3 => Ok(Op8XY3(x, y))
    case 0x4 => Ok(Op8XY4(x, y))
    case 0x5 => Ok(Op8XY5(x, y))
    case 0x6 => Ok(Op8XY6(x, y))
    case 0x7 => Ok(Op8XY7(x, y))
    case 0xE => Ok(Op8XYE(x, y))
    case _ => Err(UnknownOpcode(n))
  }

  /** Class 0xE, switched on the low byte; the instruction's canonical low byte is `nn`. */
  function DecodeKeys(x: nibble, nn: byte): (r: Result<Instr, UnknownOpcode>)
    ensures r.Err? <==> nn !in {0x9E, 0xA1}
    ensures r.Err? ==> r.error == UnknownOpcode(nn)
    ensures r.Ok? ==> IsKeys(r.value) && EncodeFields(r.value) == (0xE, x, nn / 0x10, nn % 0x10)
  {
    if nn == 0x9E then Ok(OpEX9E(x))
    else if nn == 0xA1 then Ok(OpEXA1(x))
    else Err(UnknownOpcode(nn))
  }

  /** Class 0xF, switched on the low byte; the instruction's canonical low byte is `nn`. */
  function DecodeMisc(x: nibble, nn: byte): (r: Result<Instr, UnknownOpcode>)
    ensures r.Err? <==> nn !in {0x07, 0x0A, 0x15, 0x18, 0x1E, 0x29, 0x33, 0x55, 0x65}
    ensures r.Err? ==> r.error == UnknownOpcode(nn)
    ensures r.Ok? ==> IsMisc(r.value) && EncodeFields(r.value) == (0xF, x, nn / 0x10, nn % 0x10)
  {
    match nn
    case 0x07 => Ok(OpFX07(x))
    case 0x0A => Ok(OpFX0A(x))
    case 0x15 => Ok(OpFX15(x))
    case 0x18 => Ok(OpFX18(x))
    case 0x1E => Ok(OpFX1E(x))
    case 0x29 => Ok(OpFX29(x))
    case 0x33 => Ok(OpFX33(x))
    case 0x55 => Ok(OpFX55(x))
    case 0x65 => Ok(OpFX65(x))
    case _ => Err(UnknownOpcode(nn))
  }

  /** The instruction word with nibbles `c`, `x`, `y`, `n` from the top down. */
  function Word(c: nibble, x: nibble, y: nibble, n: nibble): u16
  {
    (c as int) * 0x1000 + (x as int) * 0x100 + (y as int) * 0x10 + n
  }

  /** The canonical instruction word of each instruction (the bits the decoder ignores are 0). */
  function Encode(ins: Instr): u16
  {
    var (c, x, y, n) := EncodeFields(ins);
    Word(c, x, y, n)
  }

  /** The four nibbles of the canonical word of `ins`. */
  function EncodeFields(ins: Instr): (nibble, nibble, nibble, nibble)
  {
    match ins
    case Op00E0 => (0x0, 0x0, 0xE, 0x0)
    case Op00EE => (0x0, 0x0, 0xE, 0xE)
    case Op1NNN(nnn) => (0x1, nnn / 0x100, (nnn / 0x10) % 0x10, nnn % 0x10)
    case Op2NNN(nnn) => (0x2, nnn / 0x100, (nnn / 0x10) % 0x10, nnn % 0x10)
    case Op3XNN(x, nn) => (0x3, x, nn / 0x10, nn % 0x10)
    case Op4XNN(x, nn) => (0x4, x, nn / 0x10, nn % 0x10)
    case Op5XY0(x, y) => (0x5, x, y, 0x0)
    case Op6XNN(x, nn) => (0x6, x, nn / 0x10, nn % 0x10)
    case Op7XNN(x, nn) => (0x7, x, nn / 0x10, nn % 0x10)
    case Op8XY0(x, y) => (0x8, x, y, 0x0)
    case Op8XY1(x, y) => (0x8, x, y, 0x1)
    case Op8XY2(x, y) => (0x8, x, y, 0x2)
    case Op8XY3(x, y) => (0x8, x, y, 0x3)
    case Op8XY4(x, y) => (0x8, x, y, 0x4)
    case Op8XY5(x, y) => (0x8, x, y, 0x5)
    case Op8XY6(x, y) => (0x8, x, y, 0x6)
    case Op8XY7(x, y) => (0x8, x, y, 0x7)
    case Op8XYE(x, y) => (0x8, x, y, 0xE)
    case Op9XY0(x, y) => (0x9, x, y, 0x0)
    case OpANNN(nnn) => (0xA, nnn / 0x100, (nnn / 0x10) % 0x10, nnn % 0x10)
    case OpBNNN(nnn) => (0xB, nnn / 0x100, (nnn / 0x10) % 0x10, nnn % 0x10)
    case OpCXNN(x, nn) => (0xC, x, nn / 0x10, nn % 0x10)
    case OpDXYN(x, y, n) => (0xD, x, y, n)
    case OpEX9E(x) => (0xE, x, 0x9, 0xE)
    case OpEXA1(x) => (0xE, x, 0xA, 0x1)
    case OpFX07(x) => (0xF, x, 0x0, 0x7)
    case OpFX0A(x) => (0xF, x, 0x0, 0xA)
    case OpFX15(x) => (0xF, x, 0x1, 0x5)
    case OpFX18(x) => (0xF, x, 0x1, 0x8)
    case OpFX1E(x) => (0xF, x, 0x1, 0xE)
    case OpFX29(x) => (0xF, x, 0x2, 0x9)
    case OpFX33(x) => (0xF, x, 0x3, 0x3)
    case OpFX55(x) => (0xF, x, 0x5, 0x5)
    case OpFX65(x) => (0xF, x, 0x6, 0x5)
  }

  /**
   * The words that match no case of the switch: class 0x0 other than ??E0 and
   * ??EE, class 0x8 with a low nibble outside 0-7 and E, class 0xE other than
   * ?X9E and ?XA1, class 0xF outside the nine listed low bytes.
   */
  predicate UndefinedWord(w: u16)
  {
    var c, nn, n := w / 0x1000, w % 0x100, w % 0x10;
    || (c == 0x0 && nn != 0xE0 && nn != 0xEE)
    || (c == 0x8 && 0x8 <= n && n != 0xE)
    || (c == 0xE && nn != 0x9E && nn != 0xA1)
    || (c == 0xF && nn !in {0x07, 0x0A, 0x15, 0x18, 0x1E, 0x29, 0x33, 0x55, 0x65})
  }

  /** The part of the word `unknownOp` is called with: the low nibble for class 0x8, else the low byte. */
  function ReportedCode(w: u16): u16
  {
    if w / 0x1000 == 0x8 then w % 0x10 else w % 0x100
  }

  /** The bits of a word the decoder ignores: bits 8-11 of class 0x0, bits 0-3 of classes 0x5 and 0x9. */
  function IgnoredBits(w: u16): nat
  {
    var c := w / 0x1000;
    if c == 0x0 then ((w / 0x100) % 0x10) * 0x100
    else if c == 0x5 || c == 0x9 then w % 0x10
    else 0
  }

  // ----- dispatch -----

  /** The handler would not index past an array (the Go code would panic otherwise). */
  predicate Defined(m: MachineState, ins: Instr)
    requires WellFormed(m)
  {
    match ins
    case Op00EE => m.sp < StackDepth
    case Op2NNN(_) => CallSlot(m) < StackDepth
    case OpDXYN(_, _, _) => DrawDefined(m)
    case OpEX9E(x) => m.registers[x] < KeyCount
    case OpEXA1(x) => m.registers[x] < KeyCount
    case OpFX0A(x) => WaitKeyDefined(m, x)
    case OpFX33(_) => m.i + 2 < MemorySize
    case OpFX55(x) => m.i + x < MemorySize
    case OpFX65(x) => m.i + x < MemorySize
    case _ => true
  }

  /**
   * Runs the handler of a decoded instruction, through the inner switch of
   * classes 0x0, 0x8, 0xE and 0xF as `parseOpcode` does; `rnd` is the random
   * byte CXNN uses.
   */
  function Exec(m: MachineState, ins: Instr, rnd: byte): (r: MachineState)
    requires WellFormed(m) && Defined(m, ins)
    ensures WellFormed(r)
    ensures r.opcode == m.opcode
    ensures r.drawFlag == (ins.OpDXYN? || m.drawFlag)
  {
    if IsSystem(ins) then ExecSystem(m, ins)
    else if IsArithmetic(ins) then ExecArithmetic(m, ins)
    else if IsKeys(ins) then ExecKeys(m, ins)
    else if IsMisc(ins) then ExecMisc(m, ins)
    else if ins.OpCXNN? then RandomByte(m, ins.x, ins.nn, rnd)
    else ExecOuter(m, ins)
  }

  /** The cases of the outer switch that call their handler directly, except CXNN. */
  predicate IsOuter(ins: Instr)
  {
    || ins.Op1NNN? || ins.Op2NNN? || ins.Op3XNN? || ins.Op4XNN? || ins.Op5XY0? || ins.Op6XNN?
    || ins.Op7XNN? || ins.Op9XY0? || ins.OpANNN? || ins.OpBNNN? || ins.OpDXYN?
  }

  /** Those cases of the outer switch: classes 0x1 to 0x7, 0x9 to 0xB and 0xD. */
  function ExecOuter(m: MachineState, ins: Instr): (r: MachineState)
    requires WellFormed(m) && IsOuter(ins) && Defined(m, ins)
    ensures WellFormed(r) && r.opcode == m.opcode
    ensures r.drawFlag == (ins.OpDXYN? || m.drawFlag)
  {
    match ins
    case Op1NNN(nnn) => Jump(m, nnn)
    case Op2NNN(nnn) => Call(m, nnn)
    case Op3XNN(x, nn) => SkipIfEqual(m, x, nn)
    case Op4XNN(x, nn) => SkipIfNotEqual(m, x, nn)
    case Op5XY0(x, y) => SkipIfRegistersEqual(m, x, y)
    case Op6XNN(x, nn) => LoadByte(m, x, nn)
    case Op7XNN(x, nn) => AddByte(m, x, nn)
    case Op9XY0(x, y) => SkipIfRegistersNotEqual(m, x, y)
    case OpANNN(nnn) => SetIndex(m, nnn)
    case OpBNNN(nnn) => JumpOffset(m, nnn)
    case OpDXYN(x, y, _) => Draw(m, x, y)
  }

  /** The class 0x0 instructions. */
  predicate IsSystem(ins: Instr)
  {
    ins.Op00E0? || ins.Op00EE?
  }

  /** The class 0x8 instructions. */
  predicate IsArithmetic(ins: Instr)
  {
    || ins.Op8XY0? || ins.Op8XY1? || ins.Op8XY2? || ins.Op8XY3? || ins.Op8XY4?
    || ins.Op8XY5? || ins.Op8XY6? || ins.Op8XY7? || ins.Op8XYE?
  }

  /** The class 0xE instructions. */
  predicate IsKeys(ins: Instr)
  {
    ins.OpEX9E? || ins.OpEXA1?
  }

  /** The class 0xF instructions. */
  predicate IsMisc(ins: Instr)
  {
    || ins.OpFX07? || ins.OpFX0A? || ins.OpFX15? || ins.OpFX18? || ins.OpFX1E?
    || ins.OpFX29? || ins.OpFX33? || ins.OpFX55? || ins.OpFX65?
  }

  /** Class 0x0: only the framebuffer, the stack pointer and the program counter change. */
  function ExecSystem(m: MachineState, ins: Instr): (r: MachineState)
    requires WellFormed(m) && IsSystem(ins) && Defined(m, ins)
    ensures WellFormed(r)
    ensures r == m.(gfx := r.gfx, sp := r.sp, pc := r.pc)
  {
    match ins
    case Op00E0 => ClearScreen(m)
    case Op00EE => Return(m)
  }

  /** Class 0x8: only the registers and the program counter change. */
  function ExecArithmetic(m: MachineState, ins: Instr): (r: MachineState)
    requires WellFormed(m) && IsArithmetic(ins)
    ensures WellFormed(r)
    ensures r == m.(registers := r.registers, pc := r.pc)
  {
    match ins
    case Op8XY0(x, y) => Move(m, x, y)
    case Op8XY1(x, y) => Or(m, x, y)
    case Op8XY2(x, y) => And(m, x, y)
    case Op8XY3(x, y) => Xor(m, x, y)
    case Op8XY4(x, y) => AddRegisters(m, x, y)
    case Op8XY5(x, y) => SubRegisters(m, x, y)
    case Op8XY6(x, y) => ShiftRight(m, x, y)
    case Op8XY7(x, y) => SubReverse(m, x, y)
    case Op8XYE(x, y) => ShiftLeft(m, x, y)
  }

  /** Class 0xE: only the keypad and the program counter change. */
  function ExecKeys(m: MachineState, ins: Instr): (r: MachineState)
    requires WellFormed(m) && IsKeys(ins) && Defined(m, ins)
    ensures WellFormed(r)
    ensures r == m.(keypad := r.keypad, pc := r.pc)
  {
    match ins
    case OpEX9E(x) => SkipIfKey(m, x)
    case OpEXA1(x) => SkipIfNotKey(m, x)
  }

  /** Class 0xF: the framebuffer, the stack, the opcode and the draw flag are kept. */
  function ExecMisc(m: MachineState, ins: Instr): (r: MachineState)
    requires WellFormed(m) && IsMisc(ins) && Defined(m, ins)
    ensures WellFormed(r)
    ensures r == m.(memory := r.memory, registers := r.registers, dt := r.dt, st := r.st,
                    i := r.i, pc := r.pc, keypad := r.keypad)
  {
    match ins
    case OpFX07(x) => LoadDelay(m, x)
    case OpFX0A(x) => WaitKey(m, x)
    case OpFX15(x) => SetDelay(m, x)
    case OpFX18(x) => SetSound(m, x)
    case OpFX1E(x) => AddIndex(m, x)
    case OpFX29(x) => FontGlyph(m, x)
    case OpFX33(x) => StoreBcd(m, x)
    case OpFX55(x) => StoreRegisters(m, x)
    case OpFX65(x) => LoadRegisters(m, x)
  }

  /** The current opcode, if it decodes, can be executed without an index panic. */
  predicate OpcodeDefined(m: MachineState)
    requires WellFormed(m)
  {
    Decode(m.opcode).Ok? ==> Defined(m, Decode(m.opcode).value)
  }

  /** `parseOpcode`: decode `m.opcode` and run its handler, or report it as unknown. */
  function ParseOpcode(m: MachineState, rnd: byte): (r: Result<MachineState, UnknownOpcode>)
    requires WellFormed(m) && OpcodeDefined(m)
    ensures r.Err? <==> UndefinedWord(m.opcode)
    ensures r.Err? ==> r.error == UnknownOpcode(ReportedCode(m.opcode))
    ensures r.Ok? ==> WellFormed(r.value) && r.value.opcode == m.opcode
    ensures r.Ok? ==> r.value.drawFlag == (Decode(m.opcode).value.OpDXYN? || m.drawFlag)
  {
    match Decode(m.opcode)
    case Err(e) => Err(e)
    case Ok(ins) => Ok(Exec(m, ins, rnd))
  }

  // ----- properties of the decoder -----

  /** Every instruction's canonical word decodes back to it. */
  lemma DecodeEncode(ins: Instr)
    ensures Decode(Encode(ins)) == Ok(ins)
  {
    var (c, x, y, n) := EncodeFields(ins);
    DecodeWord(c, x, y, n);
    DecodeClassEncode(ins);
  }

  /** The outer switch maps the fields of each canonical word back to its instruction. */
  lemma DecodeClassEncode(ins: Instr)
    ensures var (c, x, y, n) := EncodeFields(ins);
      DecodeClass(c, WordOperands(x, y, n), n) == Ok(ins)
  {
    if IsArithmetic(ins) {
      DecodeArithmeticEncode(ins);
    } else if IsMisc(ins) {
      DecodeMiscEncode(ins);
    } else if IsSystem(ins) || IsKeys(ins) {
      DecodeSystemKeysEncode(ins);
    } else {
      DecodeOuterEncode(ins);
    }
  }

  /** The outer switch maps the fields of the canonical word of `ins` back to `ins`. */
  predicate ClassDecodes(ins: Instr)
  {
    var (c, x, y, n) := EncodeFields(ins);
    DecodeClass(c, WordOperands(x, y, n), n) == Ok(ins)
  }

  /** `DecodeClassEncode` for classes 0x0 and 0xE. */
  lemma DecodeSystemKeysEncode(ins: Instr)
    requires IsSystem(ins) || IsKeys(ins)
    ensures ClassDecodes(ins)
  {
  }

  /** `DecodeClassEncode` for the classes without an inner switch. */
  lemma DecodeOuterEncode(ins: Instr)
    requires !IsSystem(ins) && !IsArithmetic(ins) && !IsKeys(ins) && !IsMisc(ins)
    ensures ClassDecodes(ins)
  {
    if ins.Op1NNN? || ins.Op2NNN? || ins.OpANNN? || ins.OpBNNN? {
      DecodeAddressEncode(ins);
    } else if ins.Op3XNN? || ins.Op4XNN? || ins.Op6XNN? || ins.Op7XNN? || ins.OpCXNN? {
      DecodeByteEncode(ins);
    }
  }

  /** `DecodeOuterEncode` for the classes with a 12-bit address operand. */
  lemma DecodeAddressEncode(ins: Instr)
    requires ins.Op1NNN? || ins.Op2NNN? || ins.OpANNN? || ins.OpBNNN?
    ensures ClassDecodes(ins)
  {
    AddressNibbles(ins.nnn);
  }

  /** `DecodeOuterEncode` for the classes with a register and a byte operand. */
  lemma DecodeByteEncode(ins: Instr)
    requires ins.Op3XNN? || ins.Op4XNN? || ins.Op6XNN? || ins.Op7XNN? || ins.OpCXNN?
    ensures ClassDecodes(ins)
  {
    assert ins.nn == (ins.nn / 0x10) * 0x10 + ins.nn % 0x10;
  }

  /** `DecodeClassEncode` for class 0x8. */
  lemma DecodeArithmeticEncode(ins: Instr)
    requires IsArithmetic(ins)
    ensures ClassDecodes(ins)
  {
  }

  /** `DecodeClassEncode` for class 0xF. */
  lemma DecodeMiscEncode(ins: Instr)
    requires IsMisc(ins)
    ensures ClassDecodes(ins)
  {
  }

  /** The operand fields of a word whose low three nibbles are `x`, `y`, `n`. */
  function WordOperands(x: nibble, y: nibble, n: nibble): Operands
  {
    Operands(x, y, (y as int) * 0x10 + n, (x as int) * 0x100 + (y as int) * 0x10 + n)
  }

  /** A 12-bit address is its three nibbles. */
  lemma AddressNibbles(nnn: addr)
    ensures nnn == (nnn / 0x100) * 0x100 + ((nnn / 0x10) % 0x10) * 0x10 + nnn % 0x10
  {
    var q := nnn / 0x10;
    assert nnn == q * 0x10 + nnn % 0x10;
    assert q == (q / 0x10) * 0x10 + q % 0x10;
    assert q / 0x10 == nnn / 0x100;
  }

  /** Decoding a word built by `Word` switches on its class nibble with the fields it was built from. */
  lemma DecodeWord(c: nibble, x: nibble, y: nibble, n: nibble)
    ensures Decode(Word(c, x, y, n)) == DecodeClass(c, WordOperands(x, y, n), n)
  {
    WordFields(c, x, y, n);
  }

  /** The fields of a word built by `Word`. */
  lemma WordFields(c: nibble, x: nibble, y: nibble, n: nibble)
    ensures var w := Word(c, x, y, n);
      w / 0x1000 == c && w % 0x10 == n && Fields(w) == WordOperands(x, y, n)
  {
    var w := Word(c, x, y, n);
    var a := (x as int) * 0x100 + (y as int) * 0x10 + n;
    assert w == (c as int) * 0x1000 + a && a < 0x1000;
    assert w / 0x100 == (c as int) * 0x10 + x;
    assert w / 0x10 == (c as int) * 0x100 + (x as int) * 0x10 + y;
    NibblePair(c, x);
    assert ((c as int) * 0x100 + (x as int) * 0x10 + y) % 0x10 == y;
  }

  /** A decoded word differs from its instruction's canonical word only in the bits the decoder ignores. */
  lemma EncodeDecode(w: u16)
    requires Decode(w).Ok?
    ensures Encode(Decode(w).value) == w - IgnoredBits(w)
  {
    var c, f := w / 0x1000, Fields(w);
    DecodedFields(c, f, w % 0x10);
  }

  /** The fields of the canonical word of what `DecodeClass` returns, given consistent operand fields. */
  lemma DecodedFields(c: nibble, f: Operands, n: nibble)
    requires f.nnn == (f.x as int) * 0x100 + f.nn && f.nn == (f.y as int) * 0x10 + n
    requires DecodeClass(c, f, n).Ok?
    ensures EncodeFields(DecodeClass(c, f, n).value) ==
      (c, if c == 0x0 then 0 else f.x, f.y, if c == 0x5 || c == 0x9 then 0 else n)
  {
    NibblePair(f.y, n);
    AddressSplit(f.x, f.y, n);
  }

  /** A byte built from two nibbles splits back into them. */
  lemma NibblePair(hi: nibble, lo: nibble)
    ensures ((hi as int) * 0x10 + lo) / 0x10 == hi && ((hi as int) * 0x10 + lo) % 0x10 == lo
  {
  }

  /** A 12-bit address built from three nibbles splits back into them. */
  lemma AddressSplit(x: nibble, y: nibble, n: nibble)
    ensures var a := (x as int) * 0x100 + (y as int) * 0x10 + n;
      a / 0x100 == x && (a / 0x10) % 0x10 == y && a % 0x10 == n
  {
    var a := (x as int) * 0x100 + (y as int) * 0x10 + n;
    NibblePair(y, n);
    assert a / 0x10 == (x as int) * 0x10 + y;
    NibblePair(x, y);
  }

  // ----- properties of the handlers -----

  /** A call followed by a return comes back after the call with the stack pointer restored. */
  lemma CallThenReturn(m: MachineState, nnn: addr)
    requires WellFormed(m) && CallSlot(m) < StackDepth
    ensures var m1 := Call(m, nnn);
      && m1.sp < StackDepth
      && Return(m1) == m.(stack := m.stack[CallSlot(m) := m.pc], pc := Advance(m, 2))
  {
  }

  /** FX55 followed by FX65 with the same I and x gives back V0..Vx and keeps every register. */
  lemma StoreThenLoadRegisters(m: MachineState, x: nibble)
    requires WellFormed(m) && m.i + x < MemorySize
    ensures var m1 := StoreRegisters(m, x);
      && m1.i + x < MemorySize
      && LoadRegisters(m1, x).registers == m.registers
      && LoadRegisters(m1, x).memory == m1.memory
  {
    var m1 := StoreRegisters(m, x);
    var m2 := LoadRegisters(m1, x);
    assert forall k :: 0 <= k < RegisterCount ==> m2.registers[k] == m.registers[k];
  }

  /** No instruction leaves a framebuffer entry outside {0, 1}. */
  lemma ExecKeepsPixelsBinary(m: MachineState, ins: Instr, rnd: byte)
    requires WellFormed(m) && Defined(m, ins) && PixelsBinary(m.gfx)
    ensures PixelsBinary(Exec(m, ins, rnd).gfx)
  {
    var r := Exec(m, ins, rnd);
    if ins.Op00E0? {
      assert r == ClearScreen(m);
    } else if ins.Op00EE? {
      assert r == Return(m);
    } else if ins.OpDXYN? {
      DrawKeepsPixelsBinary(m, m.registers[ins.x], m.registers[ins.y]);
    } else {
      assert r.gfx == m.gfx;
    }
  }
}

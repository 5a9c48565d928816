/**
 * The `vm` struct of internal/chip8/vm.go as a class whose arrays are updated
 * in place: one method per handler of internal/chip8/opcodes.go and per
 * helper of vm.go. Each method is proved to move the machine exactly as the
 * function of the same name on MachineState does, so everything proved about
 * those functions holds of the class.
 */
module Interpreter {
  import opened Bytes
  import opened Wrappers
  import opened Machine
  import opened Opcodes
  import opened Execution

  class Vm {
    const memory: array<byte>
    const registers: array<byte>
    const stack: array<u16>
    const keypad: array<byte>
    /** The framebuffer of the embedded `video`, one byte per pixel. */
    const gfx: array<byte>
    var sp: u16
    var st: byte
    var dt: byte
    var i: u16
    var pc: u16
    var opcode: u16
    var drawFlag: bool

    /** The arrays have the sizes of the struct's fixed arrays and are distinct. */
    ghost predicate Valid()
      reads this
    {
      && memory.Length == MemorySize && registers.Length == RegisterCount && stack.Length == StackDepth
      && keypad.Length == KeyCount && gfx.Length == ScreenSize
      && memory != registers && memory != keypad && memory != gfx
      && registers != keypad && registers != gfx && keypad != gfx
    }

    /** The machine as a value. */
    ghost function State(): (m: MachineState)
      requires Valid()
      reads this, memory, registers, stack, keypad, gfx
      ensures WellFormed(m)
    {
      MachineState(memory[..], registers[..], stack[..], sp, st, dt, i, pc, opcode, keypad[..], gfx[..], drawFlag)
    }

    /** The zeroed struct `NewVm` allocates, with pc = 0x200. */
    constructor ()
      ensures Valid() && State() == Initial()
      ensures fresh(memory) && fresh(registers) && fresh(stack) && fresh(keypad) && fresh(gfx)
    {
      memory := new byte[MemorySize](_ => 0);
      registers := new byte[RegisterCount](_ => 0);
      stack := new u16[StackDepth](_ => 0);
      keypad := new byte[KeyCount](_ => 0);
      gfx := new byte[ScreenSize](_ => 0);
      sp, st, dt, i, pc, opcode, drawFlag := 0, 0, 0, 0, ProgramStart, 0, false;
    }

    // ----- vm.go -----

    /** `loadFontSet`: copy the font to the start of memory. */
    method LoadFontSet(font: seq<byte>)
      requires Valid() && |font| <= MemorySize
      modifies memory
      ensures Valid() && State() == Machine.LoadFontSet(old(State()), font)
    {
      for k := 0 to |font|
        invariant forall j :: 0 <= j < MemorySize ==> memory[j] == if j < k then font[j] else old(memory[j])
      {
        memory[k] := font[k];
      }
      assert memory[..] == font + old(memory[..])[|font|..];
    }

    /** `loadROM` after the file is read: refuse an oversized image, else copy it to 0x200. */
    method LoadRom(rom: seq<byte>) returns (err: Option<LoadError>)
      requires Valid()
      modifies memory
      ensures Valid()
      ensures Machine.LoadRom(old(State()), rom) == if err.Some? then Err(err.value) else Ok(State())
      ensures err.Some? ==> State() == old(State())
    {
      if |rom| > MaxRomSize {
        return Some(RomTooLarge);
      }
      for k := 0 to |rom|
        invariant forall j :: 0 <= j < MemorySize ==>
          memory[j] == if ProgramStart <= j < ProgramStart + k then rom[j - ProgramStart] else old(memory[j])
      {
        memory[ProgramStart + k] := rom[k];
      }
      assert memory[..] == old(memory[..])[..ProgramStart] + rom + old(memory[..])[ProgramStart + |rom|..];
      return None;
    }

    /** `delayTimerTick`. */
    method DelayTimerTick()
      requires Valid()
      modifies this
      ensures Valid() && State() == Machine.DelayTimerTick(old(State()))
    {
      if dt > 0 {
        dt := dt - 1;
      }
    }

    /** `soundTimerTick`; `beep` stands for the signal sent on the audio channel. */
    method SoundTimerTick() returns (beep: bool)
      requires Valid()
      modifies this
      ensures Valid() && (State(), beep) == Machine.SoundTimerTick(old(State()))
    {
      beep := false;
      if st > 0 {
        if st == 1 {
          beep := true;
        }
        st := st - 1;
      }
    }

    /**
     * The arrays as `drawSprite(x, y)`, started on `m`, leaves them after the
     * sprite slots of rank below `n`: memory[0xF] cleared, the framebuffer
     * `DrawnPrefix(m, x, y, n)` and VF raised if one of those slots collided.
     */
    ghost predicate DrawnUpTo(m: MachineState, x: byte, y: byte, n: int)
      requires Valid() && WellFormed(m) && DrawDefined(m)
      reads this, memory, registers, gfx
    {
      && memory[..] == DrawMemory(m)
      && gfx[..] == DrawnPrefix(m, x, y, n)
      && registers[..] == DrawnRegisters(m, x, y, n)
    }

    /**
     * `drawSprite(x, y)`: clears memory[0xF], then XORs rows
     * `memory[i .. i+height)` into the framebuffer, row by row.
     */
    method DrawSprite(x: byte, y: byte)
      requires Valid() && DrawDefined(State())
      modifies this, memory, registers, gfx
      ensures Valid() && State() == Machine.DrawSprite(old(State()), x, y)
    {
      ghost var m := State();
      memory[0xF] := 0;
      DrawnPrefixBounds(m, x, y);
      DrawRows(m, x, y);
      DrawnAll(m, x, y);
      drawFlag := true;
    }

    /** The outer loop of `drawSprite`: rows `0 .. height` with `height = opcode & 0x000F`. */
    method DrawRows(ghost m: MachineState, x: byte, y: byte)
      requires Valid() && WellFormed(m) && DrawDefined(m) && i == m.i && opcode == m.opcode
      requires DrawnUpTo(m, x, y, 0)
      modifies registers, gfx
      ensures DrawnUpTo(m, x, y, SpriteHeight(m) * 8)
    {
      var height := opcode % 0x10;
      var row := 0;
      while row < height
        invariant 0 <= row <= height && height == SpriteHeight(m)
        invariant DrawnUpTo(m, x, y, row * 8)
      {
        DrawRow(m, x, y, row);
        row := row + 1;
      }
    }

    /** The inner loop of `drawSprite`: the eight columns of sprite row `row`. */
    method DrawRow(ghost m: MachineState, x: byte, y: byte, row: nat)
      requires Valid() && WellFormed(m) && DrawDefined(m) && row < SpriteHeight(m)
      requires i == m.i && DrawnUpTo(m, x, y, row * 8)
      modifies registers, gfx
      ensures DrawnUpTo(m, x, y, row * 8 + 8)
    {
      var p := memory[i + row];
      for col := 0 to 8
        invariant DrawnUpTo(m, x, y, row * 8 + col)
      {
        DrawPixel(m, x, y, row, col, p);
      }
    }

    /** One iteration of the inner loop: sprite row value `p`, column `col`. */
    method DrawPixel(ghost m: MachineState, x: byte, y: byte, row: nat, col: nat, p: byte)
      requires Valid() && WellFormed(m) && DrawDefined(m) && row < SpriteHeight(m) && col < 8
      requires p == DrawMemory(m)[m.i + row] && DrawnUpTo(m, x, y, row * 8 + col)
      modifies registers, gfx
      ensures DrawnUpTo(m, x, y, row * 8 + col + 1)
    {
      DrawSlot(m, x, y, row, col);
      // x + j + (y + i) * 64 never exceeds 17542, so the uint16 sum cannot wrap
      var index := x + col + (y + row) * ScreenWidth;
      if index < gfx.Length {
        if SpriteBit(p, col) {
          if gfx[index] == 1 {
            registers[VF] := 1;
          }
          // Go's `gfx[index] ^= 1`; Toggle(g) == Xor8(g, 1) by ToggleIsXorOne
          gfx[index] := Toggle(gfx[index]);
        }
      }
    }

    // ----- opcodes.go: one method per handler -----

    /** 00E0. */
    method ClearScreen()
      requires Valid()
      modifies this, gfx
      ensures Valid() && State() == Opcodes.ClearScreen(old(State()))
      ensures State() == ExecSystem(old(State()), Op00E0)
    {
      forall k | 0 <= k < gfx.Length {
        gfx[k] := 0;
      }
      pc := Add16(pc, 2);
    }

    /** 00EE. */
    method Return()
      requires Valid() && sp < StackDepth
      modifies this
      ensures Valid() && State() == Opcodes.Return(old(State()))
      ensures State() == ExecSystem(old(State()), Op00EE)
    {
      pc := Add16(stack[sp], 2);
      sp := (sp - 1) % 0x1_0000;
    }

    /** 1NNN. */
    method Jump(nnn: addr)
      requires Valid()
      modifies this
      ensures Valid() && State() == Opcodes.Jump(old(State()), nnn)
      ensures State() == ExecOuter(old(State()), Op1NNN(nnn))
    {
      pc := nnn;
    }

    /** 2NNN. */
    method Call(nnn: addr)
      requires Valid() && CallSlot(State()) < StackDepth
      modifies this, stack
      ensures Valid() && State() == Opcodes.Call(old(State()), nnn)
      ensures State() == ExecOuter(old(State()), Op2NNN(nnn))
    {
      sp := Add16(sp, 1);
      stack[sp] := pc;
      pc := nnn;
    }

    /** 3XNN. */
    method SkipIfEqual(x: nibble, nn: byte)
      requires Valid()
      modifies this
      ensures Valid() && State() == Opcodes.SkipIfEqual(old(State()), x, nn)
      ensures State() == ExecOuter(old(State()), Op3XNN(x, nn))
    {
      if registers[x] == nn {
        pc := Add16(pc, 4);
      } else {
        pc := Add16(pc, 2);
      }
    }

    /** 4XNN. */
    method SkipIfNotEqual(x: nibble, nn: byte)
      requires Valid()
      modifies this
      ensures Valid() && State() == Opcodes.SkipIfNotEqual(old(State()), x, nn)
      ensures State() == ExecOuter(old(State()), Op4XNN(x, nn))
    {
      if registers[x] != nn {
        pc := Add16(pc, 4);
      } else {
        pc := Add16(pc, 2);
      }
    }

    /** 5XY?. */
    method SkipIfRegistersEqual(x: nibble, y: nibble)
      requires Valid()
      modifies this
      ensures Valid() && State() == Opcodes.SkipIfRegistersEqual(old(State()), x, y)
      ensures State() == ExecOuter(old(State()), Op5XY0(x, y))
    {
      if registers[x] == registers[y] {
        pc := Add16(pc, 4);
      } else {
        pc := Add16(pc, 2);
      }
    }

    /** 6XNN. */
    method LoadByte(x: nibble, nn: byte)
      requires Valid()
      modifies this, registers
      ensures Valid() && State() == Opcodes.LoadByte(old(State()), x, nn)
      ensures State() == ExecOuter(old(State()), Op6XNN(x, nn))
    {
      registers[x] := nn;
      pc := Add16(pc, 2);
    }

    /** 7XNN. */
    method AddByte(x: nibble, nn: byte)
      requires Valid()
      modifies this, registers
      ensures Valid() && State() == Opcodes.AddByte(old(State()), x, nn)
      ensures State() == ExecOuter(old(State()), Op7XNN(x, nn))
    {
      registers[x] := Add8(registers[x], nn);
      pc := Add16(pc, 2);
    }

    /** 8XY0. */
    method Move(x: nibble, y: nibble)
      requires Valid()
      modifies this, registers
      ensures Valid() && State() == Opcodes.Move(old(State()), x, y)
      ensures State() == ExecArithmetic(old(State()), Op8XY0(x, y))
    {
      registers[x] := registers[y];
      pc := Add16(pc, 2);
    }

    /** 8XY1. */
    method Or(x: nibble, y: nibble)
      requires Valid()
      modifies this, registers
      ensures Valid() && State() == Opcodes.Or(old(State()), x, y)
      ensures State() == ExecArithmetic(old(State()), Op8XY1(x, y))
    {
      registers[x] := Or8(registers[x], registers[y]);
      pc := Add16(pc, 2);
    }

    /** 8XY2. */
    method And(x: nibble, y: nibble)
      requires Valid()
      modifies this, registers
      ensures Valid() && State() == Opcodes.And(old(State()), x, y)
      ensures State() == ExecArithmetic(old(State()), Op8XY2(x, y))
    {
      registers[x] := And8(registers[x], registers[y]);
      pc := Add16(pc, 2);
    }

    /** 8XY3. */
    method Xor(x: nibble, y: nibble)
      requires Valid()
      modifies this, registers
      ensures Valid() && State() == Opcodes.Xor(old(State()), x, y)
      ensures State() == ExecArithmetic(old(State()), Op8XY3(x, y))
    {
      registers[x] := Xor8(registers[x], registers[y]);
      pc := Add16(pc, 2);
    }

    /** 8XY4: the carry is written to VF before the sum is computed. */
    method AddRegisters(x: nibble, y: nibble)
      requires Valid()
      modifies this, registers
      ensures Valid() && State() == Opcodes.AddRegisters(old(State()), x, y)
      ensures State() == ExecArithmetic(old(State()), Op8XY4(x, y))
    {
      if registers[y] > 0xFF - registers[x] {
        registers[VF] := 1;
      } else {
        registers[VF] := 0;
      }
      registers[x] := Add8(registers[x], registers[y]);
      pc := Add16(pc, 2);
    }

    /** 8XY5: NOT borrow is written to VF before the difference is computed. */
    method SubRegisters(x: nibble, y: nibble)
      requires Valid()
      modifies this, registers
      ensures Valid() && State() == Opcodes.SubRegisters(old(State()), x, y)
      ensures State() == ExecArithmetic(old(State()), Op8XY5(x, y))
    {
      if registers[y] > registers[x] {
        registers[VF] := 0;
      } else {
        registers[VF] := 1;
      }
      registers[x] := Sub8(registers[x], registers[y]);
      pc := Add16(pc, 2);
    }

    /** 8XY6: Vy is read again for VF after Vx is written. */
    method ShiftRight(x: nibble, y: nibble)
      requires Valid()
      modifies this, registers
      ensures Valid() && State() == Opcodes.ShiftRight(old(State()), x, y)
      ensures State() == ExecArithmetic(old(State()), Op8XY6(x, y))
    {
      registers[x] := registers[y] / 2;
      registers[VF] := And8(registers[y], 0x01);
      pc := Add16(pc, 2);
    }

    /** 8XY7: NOT borrow is written to VF before the difference is computed. */
    method SubReverse(x: nibble, y: nibble)
      requires Valid()
      modifies this, registers
      ensures Valid() && State() == Opcodes.SubReverse(old(State()), x, y)
      ensures State() == ExecArithmetic(old(State()), Op8XY7(x, y))
    {
      if registers[x] > registers[y] {
        registers[VF] := 0;
      } else {
        registers[VF] := 1;
      }
      registers[x] := Sub8(registers[y], registers[x]);
      pc := Add16(pc, 2);
    }

    /** 8XYE: `Vy << 1` truncated to a byte; Vy is read again for VF after Vx is written. */
    method ShiftLeft(x: nibble, y: nibble)
      requires Valid()
      modifies this, registers
      ensures Valid() && State() == Opcodes.ShiftLeft(old(State()), x, y)
      ensures State() == ExecArithmetic(old(State()), Op8XYE(x, y))
    {
      registers[x] := Add8(registers[y], registers[y]);
      registers[VF] := And8(registers[y], 0x80);
      pc := Add16(pc, 2);
    }

    /** 9XY?. */
    method SkipIfRegistersNotEqual(x: nibble, y: nibble)
      requires Valid()
      modifies this
      ensures Valid() && State() == Opcodes.SkipIfRegistersNotEqual(old(State()), x, y)
      ensures State() == ExecOuter(old(State()), Op9XY0(x, y))
    {
      if registers[x] != registers[y] {
        pc := Add16(pc, 4);
      } else {
        pc := Add16(pc, 2);
      }
    }

    /** ANNN. */
    method SetIndex(nnn: addr)
      requires Valid()
      modifies this
      ensures Valid() && State() == Opcodes.SetIndex(old(State()), nnn)
      ensures State() == ExecOuter(old(State()), OpANNN(nnn))
    {
      i := nnn;
      pc := Add16(pc, 2);
    }

    /** BNNN: pc = nnn + V0, then pc += 2. */
    method JumpOffset(nnn: addr)
      requires Valid()
      modifies this
      ensures Valid() && State() == Opcodes.JumpOffset(old(State()), nnn)
      ensures State() == ExecOuter(old(State()), OpBNNN(nnn))
    {
      pc := Add16(nnn, registers[0]);
      pc := Add16(pc, 2);
    }

    /** CXNN; `rnd` stands for `byte(rand.Float32()*255)`. */
    method RandomByte(x: nibble, nn: byte, rnd: byte)
      requires Valid()
      modifies this, registers
      ensures Valid() && State() == Opcodes.RandomByte(old(State()), x, nn, rnd)
    {
      registers[x] := And8(rnd, nn);
      pc := Add16(pc, 2);
    }

    /** DXYN: draw at (Vx, Vy), then pc += 2. */
    method Draw(x: nibble, y: nibble)
      requires Valid() && DrawDefined(State())
      modifies this, memory, registers, gfx
      ensures Valid() && State() == Opcodes.Draw(old(State()), x, y)
      ensures forall n: nibble :: State() == ExecOuter(old(State()), OpDXYN(x, y, n))
    {
      DrawSprite(registers[x], registers[y]);
      pc := Add16(pc, 2);
    }

    /** EX9E. */
    method SkipIfKey(x: nibble)
      requires Valid() && registers[x] < KeyCount
      modifies this, keypad
      ensures Valid() && State() == Opcodes.SkipIfKey(old(State()), x)
      ensures State() == ExecKeys(old(State()), OpEX9E(x))
    {
      if keypad[registers[x]] == 1 {
        pc := Add16(pc, 4);
        keypad[registers[x]] := 0;
      } else {
        pc := Add16(pc, 2);
      }
    }

    /** EXA1. */
    method SkipIfNotKey(x: nibble)
      requires Valid() && registers[x] < KeyCount
      modifies this, keypad
      ensures Valid() && State() == Opcodes.SkipIfNotKey(old(State()), x)
      ensures State() == ExecKeys(old(State()), OpEXA1(x))
    {
      if keypad[registers[x]] == 0 {
        pc := Add16(pc, 4);
      } else {
        keypad[registers[x]] := 0;
        pc := Add16(pc, 2);
      }
    }

    /** FX07. */
    method LoadDelay(x: nibble)
      requires Valid()
      modifies this, registers
      ensures Valid() && State() == Opcodes.LoadDelay(old(State()), x)
      ensures State() == ExecMisc(old(State()), OpFX07(x))
    {
      registers[x] := dt;
      pc := Add16(pc, 2);
    }

    /** FX0A: scan the keypad up to the first key down; `keypad[Vx]` is cleared in every case. */
    method WaitKey(x: nibble)
      requires Valid() && WaitKeyDefined(State(), x)
      modifies this, registers, keypad
      ensures Valid() && State() == Opcodes.WaitKey(old(State()), x)
      ensures State() == ExecMisc(old(State()), OpFX0A(x))
    {
      var k := 0;
      while k < keypad.Length
        invariant 0 <= k <= KeyCount
        invariant forall j :: 0 <= j < k ==> keypad[j] == 0
        invariant unchanged(this) && unchanged(registers)
      {
        if keypad[k] != 0 {
          registers[x] := k;
          pc := Add16(pc, 2);
          break;
        }
        k := k + 1;
      }
      keypad[registers[x]] := 0;
    }

    /** FX15. */
    method SetDelay(x: nibble)
      requires Valid()
      modifies this
      ensures Valid() && State() == Opcodes.SetDelay(old(State()), x)
      ensures State() == ExecMisc(old(State()), OpFX15(x))
    {
      dt := registers[x];
      pc := Add16(pc, 2);
    }

    /** FX18. */
    method SetSound(x: nibble)
      requires Valid()
      modifies this
      ensures Valid() && State() == Opcodes.SetSound(old(State()), x)
      ensures State() == ExecMisc(old(State()), OpFX18(x))
    {
      st := registers[x];
      pc := Add16(pc, 2);
    }

    /** FX1E. */
    method AddIndex(x: nibble)
      requires Valid()
      modifies this
      ensures Valid() && State() == Opcodes.AddIndex(old(State()), x)
      ensures State() == ExecMisc(old(State()), OpFX1E(x))
    {
      i := Add16(i, registers[x]);
      pc := Add16(pc, 2);
    }

    /** FX29: `uint16(Vx) * 5`. */
    method FontGlyph(x: nibble)
      requires Valid()
      modifies this
      ensures Valid() && State() == Opcodes.FontGlyph(old(State()), x)
      ensures State() == ExecMisc(old(State()), OpFX29(x))
    {
      i := ((registers[x] as int) * 5) % 0x1_0000;
      pc := Add16(pc, 2);
    }

    /** FX33. */
    method StoreBcd(x: nibble)
      requires Valid() && i + 2 < MemorySize
      modifies this, memory
      ensures Valid() && State() == Opcodes.StoreBcd(old(State()), x)
      ensures State() == ExecMisc(old(State()), OpFX33(x))
    {
      memory[i] := registers[x] / 100;
      memory[i + 1] := (registers[x] / 10) % 10;
      memory[i + 2] := (registers[x] % 100) % 10;
      pc := Add16(pc, 2);
    }

    /** FX55: `for i := 0; i <= x; i++ { memory[I+i] = V[i] }`. */
    method StoreRegisters(x: nibble)
      requires Valid() && i + x < MemorySize
      modifies this, memory
      ensures Valid() && State() == Opcodes.StoreRegisters(old(State()), x)
      ensures State() == ExecMisc(old(State()), OpFX55(x))
    {
      for k := 0 to x + 1
        invariant unchanged(this)
        invariant forall j :: 0 <= j < MemorySize ==>
          memory[j] == if i <= j < i + k then registers[j - i] else old(memory[j])
      {
        memory[i + k] := registers[k];
      }
      ghost var r := Opcodes.StoreRegisters(old(State()), x);
      assert memory[..] == r.memory;
      pc := Add16(pc, 2);
    }

    /** FX65: `for i := 0; i <= x; i++ { V[i] = memory[I+i] }`. */
    method LoadRegisters(x: nibble)
      requires Valid() && i + x < MemorySize
      modifies this, registers
      ensures Valid() && State() == Opcodes.LoadRegisters(old(State()), x)
      ensures State() == ExecMisc(old(State()), OpFX65(x))
    {
      for k := 0 to x + 1
        invariant unchanged(this)
        invariant forall j :: 0 <= j < RegisterCount ==>
          registers[j] == if j < k then memory[i + j] else old(registers[j])
      {
        registers[k] := memory[i + k];
      }
      ghost var r := Opcodes.LoadRegisters(old(State()), x);
      assert registers[..] == r.registers;
      pc := Add16(pc, 2);
    }

    // ----- parseOpcode and cycle -----

    /**
     * `parseOpcode`: decode the current opcode and run its handler, or return
     * the unknown-opcode error with the state untouched.
     */
    method ParseOpcode(rnd: byte) returns (err: Option<UnknownOpcode>)
      requires Valid() && OpcodeDefined(State())
      modifies this, memory, registers, stack, keypad, gfx
      ensures Valid()
      ensures var r := Opcodes.ParseOpcode(old(State()), rnd);
        if r.Err? then err == Some(r.error) && State() == old(State())
        else err.None? && State() == r.value
    {
      match Decode(opcode)
      case Err(e) =>
        err := Some(e);
      case Ok(ins) =>
        Execute(ins, rnd);
        err := None;
    }

    /** The handler call of each case of the `parseOpcode` switch. */
    method Execute(ins: Instr, rnd: byte)
      requires Valid() && Defined(State(), ins)
      modifies this, memory, registers, stack, keypad, gfx
      ensures Valid() && State() == Exec(old(State()), ins, rnd)
    {
      if IsSystem(ins) {
        ExecuteSystem(ins);
      } else if IsArithmetic(ins) {
        ExecuteArithmetic(ins);
      } else if IsKeys(ins) {
        ExecuteKeys(ins);
      } else if IsMisc(ins) {
        ExecuteMisc(ins);
      } else if ins.OpCXNN? {
        RandomByte(ins.x, ins.nn, rnd);
      } else {
        ExecuteOuter(ins);
      }
    }

    /** The inner switch of class 0x0. */
    method ExecuteSystem(ins: Instr)
      requires Valid() && IsSystem(ins) && Defined(State(), ins)
      modifies this, gfx
      ensures Valid() && State() == ExecSystem(old(State()), ins)
    {
      match ins
      case Op00E0 => ClearScreen();
      case Op00EE => Return();
    }

    /** The cases of classes 0x1 to 0x7, 0x9 to 0xB and 0xD of the outer switch. */
    method ExecuteOuter(ins: Instr)
      requires Valid() && IsOuter(ins) && Defined(State(), ins)
      modifies this, memory, registers, stack, gfx
      ensures Valid() && State() == ExecOuter(old(State()), ins)
    {
      match ins
      case Op9XY0(x, y) => SkipIfRegistersNotEqual(x, y);
      case OpANNN(nnn) => SetIndex(nnn);
      case OpBNNN(nnn) => JumpOffset(nnn);
      case OpDXYN(x, y, _) => Draw(x, y);
      case Op1NNN(_) => ExecuteFlow(ins);
      case Op2NNN(_) => ExecuteFlow(ins);
      case Op3XNN(_, _) => ExecuteFlow(ins);
      case Op4XNN(_, _) => ExecuteFlow(ins);
      case Op5XY0(_, _) => ExecuteFlow(ins);
      case Op6XNN(_, _) => ExecuteFlow(ins);
      case Op7XNN(_, _) => ExecuteFlow(ins);
    }

    /**
     * The cases of classes 0x1 to 0x7 of the outer switch. The source has no
     * such function: the one switch of `parseOpcode` is split here only to keep
     * each proof small.
     */
    method ExecuteFlow(ins: Instr)
      requires Valid() && Defined(State(), ins)
      requires ins.Op1NNN? || ins.Op2NNN? || ins.Op3XNN? || ins.Op4XNN? || ins.Op5XY0? || ins.Op6XNN? || ins.Op7XNN?
      modifies this, registers, stack
      ensures Valid() && State() == ExecOuter(old(State()), ins)
    {
      match ins
      case Op1NNN(nnn) => Jump(nnn);
      case Op2NNN(nnn) => Call(nnn);
      case Op3XNN(x, nn) => SkipIfEqual(x, nn);
      case Op4XNN(x, nn) => SkipIfNotEqual(x, nn);
      case Op5XY0(x, y) => SkipIfRegistersEqual(x, y);
      case Op6XNN(x, nn) => LoadByte(x, nn);
      case Op7XNN(x, nn) => AddByte(x, nn);
    }

    /** The inner switch of class 0x8. */
    method ExecuteArithmetic(ins: Instr)
      requires Valid() && IsArithmetic(ins)
      modifies this, registers
      ensures Valid() && State() == ExecArithmetic(old(State()), ins)
    {
      match ins
      case Op8XY4(x, y) => AddRegisters(x, y);
      case Op8XY5(x, y) => SubRegisters(x, y);
      case Op8XY6(x, y) => ShiftRight(x, y);
      case Op8XY7(x, y) => SubReverse(x, y);
      case Op8XYE(x, y) => ShiftLeft(x, y);
      case Op8XY0(_, _) => ExecuteLogic(ins);
      case Op8XY1(_, _) => ExecuteLogic(ins);
      case Op8XY2(_, _) => ExecuteLogic(ins);
      case Op8XY3(_, _) => ExecuteLogic(ins);
    }

    /**
     * The cases 8XY0 to 8XY3 of the inner switch of class 0x8; a split of that
     * switch made only to keep each proof small, with no counterpart in the source.
     */
    method ExecuteLogic(ins: Instr)
      requires Valid() && (ins.Op8XY0? || ins.Op8XY1? || ins.Op8XY2? || ins.Op8XY3?)
      modifies this, registers
      ensures Valid() && State() == ExecArithmetic(old(State()), ins)
    {
      match ins
      case Op8XY0(x, y) => Move(x, y);
      case Op8XY1(x, y) => Or(x, y);
      case Op8XY2(x, y) => And(x, y);
      case Op8XY3(x, y) => Xor(x, y);
    }

    /** The inner switch of class 0xE. */
    method ExecuteKeys(ins: Instr)
      requires Valid() && IsKeys(ins) && Defined(State(), ins)
      modifies this, keypad
      ensures Valid() && State() == ExecKeys(old(State()), ins)
    {
      match ins
      case OpEX9E(x) => SkipIfKey(x);
      case OpEXA1(x) => SkipIfNotKey(x);
    }

    /** The inner switch of class 0xF. */
    method ExecuteMisc(ins: Instr)
      requires Valid() && IsMisc(ins) && Defined(State(), ins)
      modifies this, memory, registers, keypad
      ensures Valid() && State() == ExecMisc(old(State()), ins)
    {
      match ins
      case OpFX1E(x) => AddIndex(x);
      case OpFX29(x) => FontGlyph(x);
      case OpFX33(x) => StoreBcd(x);
      case OpFX55(x) => StoreRegisters(x);
      case OpFX65(x) => LoadRegisters(x);
      case OpFX07(_) => ExecuteTimers(ins);
      case OpFX0A(_) => ExecuteTimers(ins);
      case OpFX15(_) => ExecuteTimers(ins);
      case OpFX18(_) => ExecuteTimers(ins);
    }

    /**
     * The cases FX07 to FX18 of the inner switch of class 0xF: the timers and the
     * key wait; a split of that switch made only to keep each proof small, with
     * no counterpart in the source.
     */
    method ExecuteTimers(ins: Instr)
      requires Valid() && Defined(State(), ins) && (ins.OpFX07? || ins.OpFX0A? || ins.OpFX15? || ins.OpFX18?)
      modifies this, registers, keypad
      ensures Valid() && State() == ExecMisc(old(State()), ins)
    {
      match ins
      case OpFX07(x) => LoadDelay(x);
      case OpFX0A(x) => WaitKey(x);
      case OpFX15(x) => SetDelay(x);
      case OpFX18(x) => SetSound(x);
    }

    /** `cycle`: fetch `memory[pc] << 8 | memory[pc+1]`, lower the draw flag, run `parseOpcode`. */
    method Cycle(rnd: byte) returns (err: Option<UnknownOpcode>)
      requires Valid() && CanCycle(State())
      modifies this, memory, registers, stack, keypad, gfx
      ensures Valid() && Step(State(), err) == Execution.Cycle(old(State()), rnd)
    {
      opcode := (memory[pc] as int) * 0x100 + memory[pc + 1];
      drawFlag := false;
      err := ParseOpcode(rnd);
    }
  }

  /** `NewVm` given the font table and the bytes of the ROM file. */
  method NewVm(font: seq<byte>, rom: seq<byte>) returns (r: Result<Vm, LoadError>)
    requires |font| <= MemorySize
    ensures r.Ok? ==> r.value.Valid() && Execution.NewVm(font, rom) == Ok(r.value.State())
    ensures r.Err? ==> Execution.NewVm(font, rom) == Err(r.error)
    ensures r.Ok? ==>
      && fresh(r.value) && fresh(r.value.memory) && fresh(r.value.registers)
      && fresh(r.value.stack) && fresh(r.value.keypad) && fresh(r.value.gfx)
  {
    var v := new Vm();
    v.LoadFontSet(font);
    var err := v.LoadRom(rom);
    if err.Some? {
      return Err(err.value);
    }
    return Ok(v);
  }
}

/**
 * The CHIP-8 machine state as a value, and the value-level meaning of the
 * helpers in internal/chip8/vm.go: initial state, font and ROM loading,
 * the two timers, instruction fetch and sprite drawing.
 */
module Machine {
  import opened Bytes
  import opened Wrappers

  const MemorySize: nat := 4096
  const RegisterCount: nat := 16
  const StackDepth: nat := 16
  const KeyCount: nat := 16
  const ScreenWidth: nat := 64
  const ScreenHeight: nat := 32
  const ScreenSize: nat := ScreenWidth * ScreenHeight
  /** First address of a loaded program, and the initial program counter. */
  const ProgramStart: nat := 0x200
  /** `maxRomSize`: the largest program image the loader accepts. */
  const MaxRomSize: nat := 0xFFF - 0x200
  /** The flag register VF. */
  const VF: nibble := 0xF

  /** The fields of the `vm` struct (with the embedded framebuffer `gfx`). */
  datatype MachineState = MachineState(
    memory: seq<byte>,
    registers: seq<byte>,
    stack: seq<u16>,
    sp: u16,
    st: byte,
    dt: byte,
    i: u16,
    pc: u16,
    opcode: u16,
    keypad: seq<byte>,
    gfx: seq<byte>,
    drawFlag: bool)

  /** The fixed array sizes of the struct. */
  predicate WellFormed(m: MachineState)
  {
    && |m.memory| == MemorySize
    && |m.registers| == RegisterCount
    && |m.stack| == StackDepth
    && |m.keypad| == KeyCount
    && |m.gfx| == ScreenSize
  }

  /** Every framebuffer entry is an unlit (0) or lit (1) pixel. */
  predicate PixelsBinary(gfx: seq<byte>)
  {
    forall k :: 0 <= k < |gfx| ==> gfx[k] <= 1
  }

  /** The state `NewVm` builds before loading the font and the ROM. */
  function Initial(): (m: MachineState)
    ensures WellFormed(m) && PixelsBinary(m.gfx)
    ensures m.pc == ProgramStart && m.sp == 0 && m.i == 0 && m.dt == 0 && m.st == 0 && !m.drawFlag
    ensures forall k :: 0 <= k < MemorySize ==> m.memory[k] == 0
    ensures forall k :: 0 <= k < RegisterCount ==> m.registers[k] == 0
    ensures forall k :: 0 <= k < StackDepth ==> m.stack[k] == 0
    ensures forall k :: 0 <= k < KeyCount ==> m.keypad[k] == 0
    ensures forall k :: 0 <= k < ScreenSize ==> m.gfx[k] == 0
    ensures m.opcode == 0
  {
    MachineState(
      seq(MemorySize, _ => 0), seq(RegisterCount, _ => 0), seq(StackDepth, _ => 0),
      0, 0, 0, 0, ProgramStart, 0, seq(KeyCount, _ => 0), seq(ScreenSize, _ => 0), false)
  }

  /** Copies the font table to the start of memory. */
  function LoadFontSet(m: MachineState, font: seq<byte>): (r: MachineState)
    requires WellFormed(m) && |font| <= MemorySize
    ensures WellFormed(r)
    ensures forall k :: 0 <= k < MemorySize ==> r.memory[k] == if k < |font| then font[k] else m.memory[k]
    ensures r.(memory := m.memory) == m
  {
    m.(memory := font + m.memory[|font|..])
  }

  datatype LoadError = RomTooLarge

  /** Copies a program image to `ProgramStart`, refusing images larger than MaxRomSize. */
  function LoadRom(m: MachineState, rom: seq<byte>): (r: Result<MachineState, LoadError>)
    requires WellFormed(m)
    ensures r.Err? <==> |rom| > MaxRomSize
    ensures r.Ok? ==> WellFormed(r.value) && r.value.(memory := m.memory) == m
    ensures r.Ok? ==> forall k :: 0 <= k < MemorySize ==>
      r.value.memory[k] == if ProgramStart <= k < ProgramStart + |rom| then rom[k - ProgramStart] else m.memory[k]
  {
    if |rom| > MaxRomSize then Err(RomTooLarge)
    else Ok(m.(memory := m.memory[..ProgramStart] + rom + m.memory[ProgramStart + |rom|..]))
  }

  /** `delayTimerTick`: one step toward zero, never below. */
  function DelayTimerTick(m: MachineState): (r: MachineState)
    ensures r.dt <= m.dt
    ensures r.dt < m.dt <==> m.dt > 0
    ensures m.dt > 0 ==> r.dt == m.dt - 1
    ensures r.(dt := m.dt) == m
  {
    if m.dt > 0 then m.(dt := m.dt - 1) else m
  }

  /** `soundTimerTick`: the new state and whether a beep is signalled. */
  function SoundTimerTick(m: MachineState): (r: (MachineState, bool))
    ensures r.1 <==> m.st == 1
    ensures r.0.st <= m.st
    ensures r.0.st < m.st <==> m.st > 0
    ensures m.st > 0 ==> r.0.st == m.st - 1
    ensures r.0.(st := m.st) == m
  {
    if m.st > 0 then (m.(st := m.st - 1), m.st == 1) else (m, false)
  }

  /** The instruction word at `pc`, big-endian: `memory[pc] << 8 | memory[pc+1]`. */
  function Fetch(m: MachineState): (w: u16)
    requires WellFormed(m) && m.pc + 1 < MemorySize
    ensures w / 0x100 == m.memory[m.pc] && w % 0x100 == m.memory[m.pc + 1]
  {
    (m.memory[m.pc] as int) * 0x100 + m.memory[m.pc + 1]
  }

  // ----- drawSprite -----

  /** The sprite height: the low nibble of the current opcode. */
  function SpriteHeight(m: MachineState): nat
  {
    m.opcode % 0x10
  }

  /** The sprite rows `memory[i .. i+height)` are addressable (no index panic). */
  predicate DrawDefined(m: MachineState)
  {
    SpriteHeight(m) == 0 || m.i + SpriteHeight(m) <= MemorySize
  }

  /** The linear framebuffer index `x + j + (y + i) * 64` of row `row`, column `col`. */
  function PixelIndex(x: byte, y: byte, row: nat, col: nat): nat
  {
    x + col + (y + row) * ScreenWidth
  }

  /** Whether the sprite bit of row value `p` at column `col` is set: `p & (0x80 >> col) != 0`. */
  predicate SpriteBit(p: byte, col: nat)
    requires col < 8
  {
    And8(p, Mask(col)) != 0
  }

  /**
   * Pixel `k` is toggled by the sprite: `k` is `PixelIndex(x, y, row, col)` for
   * a row below `height` and a column below 8 whose sprite bit is set. The row
   * and the column are recovered from `k` as the quotient and remainder by 64.
   */
  predicate Hit(mem: seq<byte>, base: int, height: nat, x: byte, y: byte, k: int)
    requires |mem| == MemorySize && 0 <= base && (height == 0 || base + height <= MemorySize)
  {
    var d := k - x - y * ScreenWidth;
    && 0 <= d
    && d / ScreenWidth < height
    && d % ScreenWidth < 8
    && SpriteBit(mem[base + d / ScreenWidth], d % ScreenWidth)
  }

  /** The rank of pixel `k` in the drawing order (row by row, column by column). */
  function DrawOrder(x: byte, y: byte, k: int): int
  {
    var d := k - x - y * ScreenWidth;
    (d / ScreenWidth) * 8 + d % ScreenWidth
  }

  /** Memory as drawSprite sees it: it first clears `memory[0xF]`. */
  function DrawMemory(m: MachineState): seq<byte>
    requires WellFormed(m)
  {
    m.memory[0xF := 0]
  }

  /** Whether any toggled pixel was lit. */
  predicate Collides(m: MachineState, x: byte, y: byte)
    requires WellFormed(m) && DrawDefined(m)
  {
    exists k :: 0 <= k < ScreenSize && Hit(DrawMemory(m), m.i, SpriteHeight(m), x, y, k) && m.gfx[k] == 1
  }

  /** The framebuffer after XOR-ing the sprite at `(x, y)` into it. */
  function DrawnPixels(m: MachineState, x: byte, y: byte): (g: seq<byte>)
    requires WellFormed(m) && DrawDefined(m)
    ensures |g| == ScreenSize
  {
    seq(ScreenSize, k requires 0 <= k < ScreenSize =>
      if Hit(DrawMemory(m), m.i, SpriteHeight(m), x, y, k) then Toggle(m.gfx[k]) else m.gfx[k])
  }

  /**
   * `drawSprite(x, y)`: clears `memory[0xF]` (not VF), XORs the sprite into
   * the framebuffer skipping indices past its end, sets VF to 1 on a collision
   * and otherwise leaves VF alone, and raises the draw flag.
   */
  function DrawSprite(m: MachineState, x: byte, y: byte): (r: MachineState)
    requires WellFormed(m) && DrawDefined(m)
    ensures WellFormed(r) && r.drawFlag
    ensures r.memory == m.memory[0xF := 0]
    ensures r.registers[VF] == (if Collides(m, x, y) then 1 else m.registers[VF])
    ensures forall k :: 0 <= k < RegisterCount && k != VF ==> r.registers[k] == m.registers[k]
    ensures r.(memory := m.memory, registers := m.registers, gfx := m.gfx, drawFlag := m.drawFlag) == m
  {
    m.(memory := DrawMemory(m),
       gfx := DrawnPixels(m, x, y),
       registers := if Collides(m, x, y) then m.registers[VF := 1] else m.registers,
       drawFlag := true)
  }

  /** The framebuffer once the first `n` sprite slots, in drawing order, have been drawn. */
  function DrawnPrefix(m: MachineState, x: byte, y: byte, n: int): (g: seq<byte>)
    requires WellFormed(m) && DrawDefined(m)
    ensures |g| == ScreenSize
  {
    seq(ScreenSize, k requires 0 <= k < ScreenSize =>
      if Hit(DrawMemory(m), m.i, SpriteHeight(m), x, y, k) && DrawOrder(x, y, k) < n then Toggle(m.gfx[k]) else m.gfx[k])
  }

  /** Whether one of the first `n` sprite slots toggled a lit pixel. */
  predicate CollidesBefore(m: MachineState, x: byte, y: byte, n: int)
    requires WellFormed(m) && DrawDefined(m)
  {
    exists k :: 0 <= k < ScreenSize && Hit(DrawMemory(m), m.i, SpriteHeight(m), x, y, k) && DrawOrder(x, y, k) < n && m.gfx[k] == 1
  }

  /** Before the first slot nothing is drawn; after all `8 * height` slots the whole sprite is. */
  lemma DrawnPrefixBounds(m: MachineState, x: byte, y: byte)
    requires WellFormed(m) && DrawDefined(m)
    ensures DrawnPrefix(m, x, y, 0) == m.gfx && !CollidesBefore(m, x, y, 0)
    ensures DrawnPrefix(m, x, y, 8 * SpriteHeight(m)) == DrawnPixels(m, x, y)
    ensures CollidesBefore(m, x, y, 8 * SpriteHeight(m)) <==> Collides(m, x, y)
    ensures DrawnRegisters(m, x, y, 0) == m.registers
  {
    var mem, h := DrawMemory(m), SpriteHeight(m);
    forall k | Hit(mem, m.i, h, x, y, k)
      ensures 0 <= DrawOrder(x, y, k) < 8 * h
    {
      var d := k - x - y * ScreenWidth;
      assert 0 <= d / ScreenWidth < h;
    }
  }

  /** Two slots with the same drawing rank are the same slot. */
  lemma SlotRank(r1: nat, c1: nat, r2: nat, c2: nat)
    requires c1 < 8 && c2 < 8 && r1 * 8 + c1 == r2 * 8 + c2
    ensures r1 == r2 && c1 == c2
  {
  }

  /** The only pixel the sprite toggles at rank `row * 8 + col` is the pixel of slot `(row, col)`. */
  lemma RankedHit(m: MachineState, x: byte, y: byte, row: nat, col: nat, k: int)
    requires WellFormed(m) && DrawDefined(m) && col < 8
    requires Hit(DrawMemory(m), m.i, SpriteHeight(m), x, y, k) && DrawOrder(x, y, k) == row * 8 + col
    ensures k == PixelIndex(x, y, row, col)
  {
    HitHasSlot(DrawMemory(m), m.i, SpriteHeight(m), x, y, k);
    var d := k - x - y * ScreenWidth;
    SlotRank(d / ScreenWidth, d % ScreenWidth, row, col);
  }

  /**
   * Drawing slot `(row, col)`, the slot of rank `row * 8 + col`: its pixel is
   * still undrawn, it is toggled if it is on screen and its sprite bit is set,
   * and no other pixel changes.
   */
  lemma DrawnPrefixStep(m: MachineState, x: byte, y: byte, row: nat, col: nat)
    requires WellFormed(m) && DrawDefined(m) && row < SpriteHeight(m) && col < 8
    ensures var n, k := row * 8 + col, PixelIndex(x, y, row, col);
      var hit := k < ScreenSize && SpriteBit(DrawMemory(m)[m.i + row], col);
      && (k < ScreenSize ==> DrawnPrefix(m, x, y, n)[k] == m.gfx[k])
      && DrawnPrefix(m, x, y, n + 1) == (if hit then DrawnPrefix(m, x, y, n)[k := Toggle(m.gfx[k])] else DrawnPrefix(m, x, y, n))
  {
    var mem, h := DrawMemory(m), SpriteHeight(m);
    HitAtSlot(mem, m.i, h, x, y, row, col);
    forall k' | Hit(mem, m.i, h, x, y, k') && DrawOrder(x, y, k') == row * 8 + col
      ensures k' == PixelIndex(x, y, row, col)
    {
      RankedHit(m, x, y, row, col, k');
    }
  }

  /** Slot `(row, col)` adds a collision exactly when it toggles a lit on-screen pixel. */
  lemma CollidesBeforeStep(m: MachineState, x: byte, y: byte, row: nat, col: nat)
    requires WellFormed(m) && DrawDefined(m) && row < SpriteHeight(m) && col < 8
    ensures var n, k := row * 8 + col, PixelIndex(x, y, row, col);
      var hit := k < ScreenSize && SpriteBit(DrawMemory(m)[m.i + row], col);
      CollidesBefore(m, x, y, n + 1) <==> CollidesBefore(m, x, y, n) || (hit && m.gfx[k] == 1)
  {
    var mem, h := DrawMemory(m), SpriteHeight(m);
    var n, k := row * 8 + col, PixelIndex(x, y, row, col);
    HitAtSlot(mem, m.i, h, x, y, row, col);
    if CollidesBefore(m, x, y, n + 1) && !CollidesBefore(m, x, y, n) {
      var k' :| 0 <= k' < ScreenSize && Hit(mem, m.i, h, x, y, k') && DrawOrder(x, y, k') < n + 1 && m.gfx[k'] == 1;
      RankedHit(m, x, y, row, col, k');
    }
    if k < ScreenSize && SpriteBit(mem[m.i + row], col) && m.gfx[k] == 1 {
      assert Hit(mem, m.i, h, x, y, k) && DrawOrder(x, y, k) < n + 1;
    }
  }

  /** The registers once the first `n` sprite slots have been drawn: VF is 1 if one of them collided. */
  function DrawnRegisters(m: MachineState, x: byte, y: byte, n: int): (regs: seq<byte>)
    requires WellFormed(m) && DrawDefined(m)
    ensures |regs| == RegisterCount
  {
    if CollidesBefore(m, x, y, n) then m.registers[VF := 1] else m.registers
  }

  /**
   * One iteration of the inner loop of drawSprite, on the framebuffer and the
   * registers as the loop has left them: slot `(row, col)` toggles its pixel
   * and raises VF if that pixel is lit, when the pixel is on screen and the
   * sprite bit is set; otherwise nothing changes.
   */
  lemma DrawSlot(m: MachineState, x: byte, y: byte, row: nat, col: nat)
    requires WellFormed(m) && DrawDefined(m) && row < SpriteHeight(m) && col < 8
    ensures var n, k := row * 8 + col, PixelIndex(x, y, row, col);
      var g, regs := DrawnPrefix(m, x, y, n), DrawnRegisters(m, x, y, n);
      if k < ScreenSize && SpriteBit(DrawMemory(m)[m.i + row], col) then
        && DrawnPrefix(m, x, y, n + 1) == g[k := Toggle(g[k])]
        && DrawnRegisters(m, x, y, n + 1) == if g[k] == 1 then regs[VF := 1] else regs
      else
        DrawnPrefix(m, x, y, n + 1) == g && DrawnRegisters(m, x, y, n + 1) == regs
  {
    DrawnPrefixStep(m, x, y, row, col);
    CollidesBeforeStep(m, x, y, row, col);
  }

  /** drawSprite is done once all `8 * height` slots are drawn. */
  lemma DrawnAll(m: MachineState, x: byte, y: byte)
    requires WellFormed(m) && DrawDefined(m)
    ensures DrawSprite(m, x, y) ==
      m.(memory := DrawMemory(m), gfx := DrawnPrefix(m, x, y, 8 * SpriteHeight(m)),
         registers := DrawnRegisters(m, x, y, 8 * SpriteHeight(m)), drawFlag := true)
  {
    DrawnPrefixBounds(m, x, y);
  }

  /** The slot `(row, col)` of the sprite lands on `PixelIndex(x, y, row, col)`, in drawing order `row * 8 + col`. */
  lemma HitAtSlot(mem: seq<byte>, base: int, height: nat, x: byte, y: byte, row: nat, col: nat)
    requires |mem| == MemorySize && 0 <= base && (height == 0 || base + height <= MemorySize)
    requires row < height && col < 8
    ensures Hit(mem, base, height, x, y, PixelIndex(x, y, row, col)) <==> SpriteBit(mem[base + row], col)
    ensures DrawOrder(x, y, PixelIndex(x, y, row, col)) == row * 8 + col
  {
    var d := PixelIndex(x, y, row, col) - x - y * ScreenWidth;
    assert d == col + row * ScreenWidth;
    assert d / ScreenWidth == row && d % ScreenWidth == col;
  }

  /**
   * A toggled pixel is reached from exactly one sprite slot: the slot
   * `(d / 64, d % 64)`, which is in range and has its sprite bit set, and no other.
   */
  lemma HitHasSlot(mem: seq<byte>, base: int, height: nat, x: byte, y: byte, k: int)
    requires |mem| == MemorySize && 0 <= base && (height == 0 || base + height <= MemorySize)
    requires Hit(mem, base, height, x, y, k)
    ensures var d := k - x - y * ScreenWidth;
      && d / ScreenWidth < height && d % ScreenWidth < 8
      && SpriteBit(mem[base + d / ScreenWidth], d % ScreenWidth)
      && k == PixelIndex(x, y, d / ScreenWidth, d % ScreenWidth)
      && DrawOrder(x, y, k) == (d / ScreenWidth) * 8 + d % ScreenWidth
    ensures var d := k - x - y * ScreenWidth;
      forall row: nat, col: nat | col < 8 && PixelIndex(x, y, row, col) == k ::
        row == d / ScreenWidth && col == d % ScreenWidth
  {
    var d := k - x - y * ScreenWidth;
    forall row: nat, col: nat | col < 8 && PixelIndex(x, y, row, col) == k
      ensures row == d / ScreenWidth && col == d % ScreenWidth
    {
      assert d == row * ScreenWidth + col;
    }
  }

  /**
   * The pixel of an in-range sprite slot is toggled when its sprite bit is set
   * and kept otherwise; a pixel that no slot reaches is kept.
   */
  lemma DrawSpriteSlots(m: MachineState, x: byte, y: byte)
    requires WellFormed(m) && DrawDefined(m)
    ensures var r := DrawSprite(m, x, y);
      forall row: nat, col: nat | row < SpriteHeight(m) && col < 8 && PixelIndex(x, y, row, col) < ScreenSize ::
        r.gfx[PixelIndex(x, y, row, col)] ==
          if SpriteBit(DrawMemory(m)[m.i + row], col) then Toggle(m.gfx[PixelIndex(x, y, row, col)])
          else m.gfx[PixelIndex(x, y, row, col)]
    ensures var r := DrawSprite(m, x, y);
      forall k | 0 <= k < ScreenSize && r.gfx[k] != m.gfx[k] ::
        exists row: nat, col: nat :: row < SpriteHeight(m) && col < 8 && k == PixelIndex(x, y, row, col)
  {
    var r := DrawSprite(m, x, y);
    var mem, h := DrawMemory(m), SpriteHeight(m);
    forall row: nat, col: nat | row < h && col < 8 && PixelIndex(x, y, row, col) < ScreenSize
      ensures r.gfx[PixelIndex(x, y, row, col)] ==
          if SpriteBit(mem[m.i + row], col) then Toggle(m.gfx[PixelIndex(x, y, row, col)])
          else m.gfx[PixelIndex(x, y, row, col)]
    {
      HitAtSlot(mem, m.i, h, x, y, row, col);
    }
    forall k | 0 <= k < ScreenSize && r.gfx[k] != m.gfx[k]
      ensures exists row: nat, col: nat :: row < h && col < 8 && k == PixelIndex(x, y, row, col)
    {
      assert Hit(mem, m.i, h, x, y, k);
      HitHasSlot(mem, m.i, h, x, y, k);
      var d := k - x - y * ScreenWidth;
      assert k == PixelIndex(x, y, d / ScreenWidth, d % ScreenWidth);
    }
  }

  /** Drawing never lights a pixel outside {0, 1}. */
  lemma DrawKeepsPixelsBinary(m: MachineState, x: byte, y: byte)
    requires WellFormed(m) && DrawDefined(m) && PixelsBinary(m.gfx)
    ensures PixelsBinary(DrawSprite(m, x, y).gfx)
  {
    var g := DrawSprite(m, x, y).gfx;
    forall k | 0 <= k < |g| ensures g[k] <= 1 {
      ToggleInvolutive(m.gfx[k]);
    }
  }

  /** A second draw of the same sprite at the same place sees the same sprite rows. */
  lemma RedrawSeesSameSprite(m: MachineState, x: byte, y: byte)
    requires WellFormed(m) && DrawDefined(m)
    ensures var m1 := DrawSprite(m, x, y);
      && DrawDefined(m1) && DrawMemory(m1) == DrawMemory(m)
      && m1.i == m.i && SpriteHeight(m1) == SpriteHeight(m)
  {
  }

  /** XOR drawing is self-inverse: drawing the same sprite twice restores the framebuffer. */
  lemma DrawTwiceRestores(m: MachineState, x: byte, y: byte)
    requires WellFormed(m) && DrawDefined(m)
    ensures var m1 := DrawSprite(m, x, y);
      DrawDefined(m1) && DrawSprite(m1, x, y).gfx == m.gfx
  {
    var m1 := DrawSprite(m, x, y);
    RedrawSeesSameSprite(m, x, y);
    var m2 := DrawSprite(m1, x, y);
    forall k | 0 <= k < ScreenSize ensures m2.gfx[k] == m.gfx[k] {
      ToggleInvolutive(m.gfx[k]);
    }
  }

  /**
   * On a framebuffer of 0/1 pixels, the second of two identical draws collides
   * exactly when the first one lit some pixel (toggled it from 0).
   */
  lemma SecondDrawCollides(m: MachineState, x: byte, y: byte)
    requires WellFormed(m) && DrawDefined(m) && PixelsBinary(m.gfx)
    ensures var m1 := DrawSprite(m, x, y);
      DrawDefined(m1) &&
      (Collides(m1, x, y) <==>
        exists k :: 0 <= k < ScreenSize && Hit(DrawMemory(m), m.i, SpriteHeight(m), x, y, k) && m.gfx[k] == 0)
  {
    var m1 := DrawSprite(m, x, y);
    RedrawSeesSameSprite(m, x, y);
    var mem, h := DrawMemory(m), SpriteHeight(m);
    if exists k :: 0 <= k < ScreenSize && Hit(mem, m.i, h, x, y, k) && m.gfx[k] == 0 {
      var k :| 0 <= k < ScreenSize && Hit(mem, m.i, h, x, y, k) && m.gfx[k] == 0;
      assert m1.gfx[k] == 1;
    }
    if Collides(m1, x, y) {
      var k :| 0 <= k < ScreenSize && Hit(DrawMemory(m1), m1.i, SpriteHeight(m1), x, y, k) && m1.gfx[k] == 1;
      assert m1.gfx[k] == Toggle(m.gfx[k]);
      assert m.gfx[k] == 0;
    }
  }
}

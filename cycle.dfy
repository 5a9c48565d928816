/**
 * One fetch-decode-execute step of the interpreter (`cycle` in
 * internal/chip8/vm.go), the construction of a machine (`NewVm`), and the
 * long-run behaviour of the two timers, as functions on MachineState.
 */
module Execution {
  import opened Bytes
  import opened Wrappers
  import opened Machine
  import opened Opcodes

  /**
   * `NewVm`: a zeroed machine with pc = 0x200, the font copied to address 0
   * and the program image to 0x200; an oversized image is refused.
   */
  function NewVm(font: seq<byte>, rom: seq<byte>): (r: Result<MachineState, LoadError>)
    requires |font| <= MemorySize
    ensures r.Err? <==> |rom| > MaxRomSize
    ensures r.Ok? ==> WellFormed(r.value) && PixelsBinary(r.value.gfx)
    ensures r.Ok? ==> r.value.pc == ProgramStart && r.value.sp == 0 && r.value.i == 0
    ensures r.Ok? ==> forall k :: 0 <= k < MemorySize ==>
      r.value.memory[k] ==
        if ProgramStart <= k < ProgramStart + |rom| then rom[k - ProgramStart]
        else if k < |font| then font[k]
        else 0
    ensures r.Ok? ==> r.value.dt == 0 && r.value.st == 0 && r.value.opcode == 0 && !r.value.drawFlag
    ensures r.Ok? ==> forall k :: 0 <= k < RegisterCount ==> r.value.registers[k] == 0
    ensures r.Ok? ==> forall k :: 0 <= k < StackDepth ==> r.value.stack[k] == 0
    ensures r.Ok? ==> forall k :: 0 <= k < KeyCount ==> r.value.keypad[k] == 0
    ensures r.Ok? ==> forall k :: 0 <= k < ScreenSize ==> r.value.gfx[k] == 0
  {
    LoadRom(LoadFontSet(Initial(), font), rom)
  }

  /** The state after the fetch half of `cycle`: the word at pc is the opcode and the draw flag is lowered. */
  function Fetched(m: MachineState): (f: MachineState)
    requires WellFormed(m) && m.pc + 1 < MemorySize
    ensures WellFormed(f) && f.opcode == Fetch(m) && !f.drawFlag
    ensures f.(opcode := m.opcode, drawFlag := m.drawFlag) == m
  {
    m.(opcode := Fetch(m), drawFlag := false)
  }

  /** `cycle` reads memory[pc] and memory[pc+1], and the handler then indexes no array out of range. */
  predicate CanCycle(m: MachineState)
    requires WellFormed(m)
  {
    m.pc + 1 < MemorySize && OpcodeDefined(Fetched(m))
  }

  /** The outcome of a cycle: the new state and the error `parseOpcode` returned, if any. */
  datatype Step = Step(state: MachineState, error: Option<UnknownOpcode>)

  /**
   * `cycle`: fetch the big-endian word at pc, lower the draw flag, decode and
   * execute. An unknown word changes nothing else: in particular pc stays,
   * so the same word is fetched again next cycle.
   */
  function Cycle(m: MachineState, rnd: byte): (s: Step)
    requires WellFormed(m) && CanCycle(m)
    ensures WellFormed(s.state) && s.state.opcode == Fetch(m)
    ensures s.error.Some? <==> UndefinedWord(Fetch(m))
    ensures s.error.Some? ==>
      s.error.value == UnknownOpcode(ReportedCode(Fetch(m))) && s.state == m.(opcode := Fetch(m), drawFlag := false)
    ensures s.state.drawFlag <==> s.error.None? && Decode(Fetch(m)).value.OpDXYN?
  {
    var f := Fetched(m);
    match ParseOpcode(f, rnd)
    case Ok(r) => Step(r, None)
    case Err(e) => Step(f, Some(e))
  }

  /** The first word fetched from a new machine is the first two bytes of the program image. */
  lemma NewVmFetchesRom(font: seq<byte>, rom: seq<byte>)
    requires |font| <= MemorySize && 2 <= |rom| <= MaxRomSize
    ensures var r := NewVm(font, rom);
      r.Ok? && r.value.pc + 1 < MemorySize && Fetch(r.value) == (rom[0] as int) * 0x100 + rom[1]
  {
    var m := NewVm(font, rom).value;
    assert m.memory[ProgramStart] == rom[0] && m.memory[ProgramStart + 1] == rom[1];
  }

  /** A cycle on 6XNN at 0x200 (bytes 0x60 0x0A) sets V0 = 0x0A and moves pc to 0x202. */
  lemma LoadImmediateCycle(m: MachineState, rnd: byte)
    requires WellFormed(m) && m.pc == ProgramStart
    requires m.memory[ProgramStart] == 0x60 && m.memory[ProgramStart + 1] == 0x0A
    ensures CanCycle(m)
    ensures var s := Cycle(m, rnd);
      s.error.None? && s.state.registers[0] == 0x0A && s.state.pc == 0x202 && !s.state.drawFlag
  {
    assert Fetch(m) == 0x600A;
    assert Decode(0x600A) == Ok(Op6XNN(0, 0x0A)) by {
      DecodeEncode(Op6XNN(0, 0x0A));
    }
  }

  /**
   * FX0A with no key down leaves the machine as fetched, so every later cycle
   * fetches the same word and leaves the same state: the program waits.
   */
  lemma WaitKeyRepeats(m: MachineState, x: nibble, rnd: byte)
    requires WellFormed(m) && m.pc + 1 < MemorySize
    requires m.memory[m.pc] == 0xF0 + x && m.memory[m.pc + 1] == 0x0A
    requires forall k :: 0 <= k < KeyCount ==> m.keypad[k] == 0
    requires m.registers[x] < KeyCount
    ensures CanCycle(m)
    ensures var s := Cycle(m, rnd);
      && s.error.None? && s.state == Fetched(m)
      && CanCycle(s.state) && Cycle(s.state, rnd) == s
  {
    assert Fetch(m) == Word(0xF, x, 0x0, 0xA);
    assert Decode(Fetch(m)) == Ok(OpFX0A(x)) by {
      DecodeEncode(OpFX0A(x));
    }
    assert FirstPressed(m.keypad) == KeyCount;
    var f := Fetched(m);
    assert WaitKey(f, x) == f;
    assert Fetched(f) == f;
  }

  /** No cycle leaves a framebuffer entry outside {0, 1}. */
  lemma CycleKeepsPixelsBinary(m: MachineState, rnd: byte)
    requires WellFormed(m) && CanCycle(m) && PixelsBinary(m.gfx)
    ensures PixelsBinary(Cycle(m, rnd).state.gfx)
  {
    var f := Fetched(m);
    if Decode(f.opcode).Ok? {
      ExecKeepsPixelsBinary(f, Decode(f.opcode).value, rnd);
    }
  }

  // ----- the timers over many ticks -----

  /** The machine after `n` calls of `delayTimerTick`. */
  function DelayTicks(m: MachineState, n: nat): MachineState
    decreases n
  {
    if n == 0 then m else DelayTicks(DelayTimerTick(m), n - 1)
  }

  /** After `n` ticks the delay timer reads `dt - n`, stopping at 0, and nothing else has changed. */
  lemma {:induction false} DelayTicksCountDown(m: MachineState, n: nat)
    ensures DelayTicks(m, n).dt == if m.dt > n then m.dt - n else 0
    ensures DelayTicks(m, n).(dt := m.dt) == m
    decreases n
  {
    if n > 0 {
      DelayTicksCountDown(DelayTimerTick(m), n - 1);
    }
  }

  /** The machine after `n` calls of `soundTimerTick`, and how many beeps were signalled. */
  function SoundTicks(m: MachineState, n: nat): (MachineState, nat)
    decreases n
  {
    if n == 0 then (m, 0)
    else
      var (m1, beep) := SoundTimerTick(m);
      var (r, beeps) := SoundTicks(m1, n - 1);
      (r, beeps + (if beep then 1 else 0))
  }

  /**
   * A sound timer set to `st` beeps exactly once, on the tick that takes it
   * from 1 to 0: within `n` ticks there is one beep iff 0 < st <= n.
   */
  lemma {:induction false} SoundTicksBeepOnce(m: MachineState, n: nat)
    ensures SoundTicks(m, n).1 == if 0 < m.st <= n then 1 else 0
    ensures SoundTicks(m, n).0.st == if m.st > n then m.st - n else 0
    ensures SoundTicks(m, n).0.(st := m.st) == m
    decreases n
  {
    if n > 0 {
      SoundTicksBeepOnce(SoundTimerTick(m).0, n - 1);
    }
  }
}

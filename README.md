# CHIP-8 interpreter core in Dafny

This project models the core of a CHIP-8 interpreter written in Go: the
machine state of the `vm` struct, the instruction decoder `parseOpcode`, the
34 opcode handlers of `internal/chip8/opcodes.go`, and the helpers of
`internal/chip8/vm.go`. Those helpers are `cycle`, `drawSprite`, the two timer
ticks, `loadROM`, `loadFontSet` and the state `NewVm` builds.

It is written at two levels.

- A value-level specification (modules `Machine`, `Opcodes`, `Execution`).
  - `MachineState` is a datatype holding the fields of the struct.
  - There is one function per handler; `Exec` holds the switch of `parseOpcode`.
  - `Cycle` is one fetch-decode-execute step.
  - The properties of the interpreter are proved as lemmas about these
    functions:
    - decoding and encoding of instruction words;
    - call and return;
    - storing and loading registers;
    - XOR drawing is self-inverse, and the collision flag of the repeated draw;
    - pixels stay in {0, 1};
    - the key wait repeats;
    - the timers count down, and the sound timer beeps once.
- An imperative class `Interpreter.Vm`. Its fields are the struct's fields:
  Go fixed arrays become Dafny `array`s, updated in place.
  - It has one method per handler and per helper.
  - Every method is proved to change the arrays and fields exactly as the
    value-level function of the same name does
    (`ensures State() == Opcodes.X(old(State()), …)`).
  - So each lemma about the specification holds of the class.
  - The loops of `drawSprite`, `loadROM`, `loadFontSet`, FX0A, FX55 and FX65
    are `while`/`for` loops with their invariants.

Go's `byte` and `uint16` are the subset types `byte` and `u16` of module
`Bytes`. Every wrap-around is written out with `%`, for example the stack
pointer of 00EE running below 0. `&`, `|` and `^` are defined bit by bit.

Where this model follows the code rather than the written description of the
interpreter, it follows these code behaviours:

- **Collision flag.** `drawSprite` clears `memory[0xF]` rather than VF. So VF
  is set to 1 on a collision and otherwise keeps its old value.
- **8XY6 and 8XYE** read Vy again after Vx has been written, so x == y changes
  the flag. With x == VF the flag then overwrites Vx's result.
- **8XY4, 8XY5 and 8XY7** all write VF before they compute the result. So when
  y is VF the result uses the new flag, and when x is VF the result
  overwrites the flag. The contracts state each case, including x == y == VF.
- **8XYE** stores `Vy & 0x80` (0 or 0x80) in VF.
- **BNNN** adds 2 to pc after the jump to nnn + V0.
- **2NNN** increments sp before it stores pc, so a call from sp = 0 leaves
  `stack[0]` unused.
- **EX9E** skips only when the key byte is exactly 1, and clears that key
  when it skips.
- **EXA1** clears the key when it is down and does not skip.
- **FX0A** always runs its final `keypad[Vx] = 0`. In `Opcodes.WaitKey` this
  is the key just found, or a key that is already 0.
- **An unknown word** leaves pc where it was, so the next cycle fetches the
  same word again.

## Model

| member | source | states |
|---|---|---|
| Machine.Initial | internal/chip8/vm.go:118-132 | the struct NewVm allocates: memory, registers, stack, keypad and framebuffer all zero, opcode 0, pc = 0x200, sp = I = timers = 0 |
| Machine.LoadFontSet | internal/chip8/vm.go:109-113 | memory[k] becomes font[k] below the font's length, and every other byte and field is kept |
| Machine.LoadRom | internal/chip8/vm.go:91-106 | fails iff the image is longer than maxRomSize (0xFFF - 0x200 = 3583); otherwise memory[0x200 + k] = rom[k] and nothing else changes |
| Machine.DelayTimerTick | internal/chip8/vm.go:210-214 | dt decreases by one exactly when it is positive, never below 0; nothing else changes |
| Machine.SoundTimerTick | internal/chip8/vm.go:216-224 | beeps iff st == 1; st decreases by one exactly when positive; nothing else changes |
| Machine.Fetch | internal/chip8/vm.go:168 | the word's high byte is memory[pc] and its low byte memory[pc+1] |
| Machine.DrawSprite | internal/chip8/vm.go:232-256 | memory[0xF] is cleared; VF becomes 1 on a collision and otherwise keeps its value; other registers are kept; the draw flag is raised |
| Machine.DrawSpriteSlots | internal/chip8/vm.go:235-253 | each on-screen pixel of sprite slot (row, col) is toggled iff the sprite bit `p & (0x80 >> col)` is set; any pixel that changes belongs to a sprite slot |
| Machine.DrawKeepsPixelsBinary | internal/chip8/vm.go:246-250 | drawing keeps every framebuffer entry in {0, 1} |
| Machine.RedrawSeesSameSprite | internal/chip8/vm.go:232-238 | after a draw, the second draw reads the same sprite rows: the cleared byte 0xF stays cleared, and I and the height are unchanged |
| Machine.DrawTwiceRestores | internal/chip8/vm.go:241-252 | drawing the same sprite twice at the same place restores the framebuffer |
| Machine.SecondDrawCollides | internal/chip8/vm.go:246-250 | the second of two identical draws collides iff a pixel the sprite covers was unlit before the first |
| Machine.HitAtSlot | internal/chip8/vm.go:241-246 | slot (row, col) lands on pixel `x + col + (y + row) * 64`, drawn in order `row * 8 + col`, iff its sprite bit is set |
| Machine.HitHasSlot | internal/chip8/vm.go:241-246 | every toggled pixel comes from the slot (d / 64, d % 64), which is in range with its sprite bit set, and from no other (row, col) |
| Machine.DrawnPrefixBounds | internal/chip8/vm.go:236-253 | drawing no slot leaves the framebuffer as is; drawing all `8 * height` slots gives the whole sprite and its collision |
| Machine.DrawnPrefixStep | internal/chip8/vm.go:241-251 | each slot toggles at most its own pixel, and that pixel is still in its pre-draw state when reached |
| Machine.CollidesBeforeStep | internal/chip8/vm.go:246-248 | a slot adds a collision exactly when it toggles a lit on-screen pixel |
| Machine.DrawSlot | internal/chip8/vm.go:241-251 | the framebuffer and registers after one more slot: toggle that pixel and raise VF if it was lit, or change nothing |
| Machine.DrawnAll | internal/chip8/vm.go:232-256 | the slot-by-slot drawing of all rows is drawSprite |
| Opcodes.ClearScreen | internal/chip8/opcodes.go:8-11 | 00E0: all pixels 0, pc += 2, nothing else changes |
| Opcodes.Return | internal/chip8/opcodes.go:13-16 | 00EE: pc = stack[sp] + 2; sp decremented as a uint16 (0 wraps to 0xFFFF) |
| Opcodes.Jump | internal/chip8/opcodes.go:18-20 | 1NNN: pc = nnn, nothing else changes |
| Opcodes.Call | internal/chip8/opcodes.go:22-26 | 2NNN: sp incremented first, stack[sp] = old pc, pc = nnn; stack[0] unused from sp = 0; other stack slots kept |
| Opcodes.SkipIfEqual | internal/chip8/opcodes.go:28-34 | 3XNN: pc += 4 iff Vx == nn, else pc += 2 |
| Opcodes.SkipIfNotEqual | internal/chip8/opcodes.go:36-42 | 4XNN: pc += 4 iff Vx != nn, else pc += 2 |
| Opcodes.SkipIfRegistersEqual | internal/chip8/opcodes.go:44-50 | 5XY?: pc += 4 iff Vx == Vy, else pc += 2 |
| Opcodes.LoadByte | internal/chip8/opcodes.go:52-55 | 6XNN: Vx = nn, other registers kept |
| Opcodes.AddByte | internal/chip8/opcodes.go:57-60 | 7XNN: Vx = (Vx + nn) mod 256, VF untouched unless x is VF |
| Opcodes.Move | internal/chip8/opcodes.go:62-65 | 8XY0: Vx = Vy, other registers kept |
| Opcodes.Or | internal/chip8/opcodes.go:67-70 | 8XY1: Vx = Vx \| Vy, other registers kept |
| Opcodes.And | internal/chip8/opcodes.go:72-75 | 8XY2: Vx = Vx & Vy, other registers kept |
| Opcodes.Xor | internal/chip8/opcodes.go:77-80 | 8XY3: Vx = Vx ^ Vy, other registers kept |
| Opcodes.AddRegisters | internal/chip8/opcodes.go:82-91 | 8XY4: VF = 1 iff Vx + Vy > 255, Vx = (Vx + Vy) mod 256, with the cases for x or y or both equal to VF (8FF4 leaves twice the carry) |
| Opcodes.SubRegisters | internal/chip8/opcodes.go:93-102 | 8XY5: VF = 0 iff Vy > Vx, Vx = (Vx - Vy) mod 256, with the cases for x or y or both equal to VF (8FF5 leaves 0) |
| Opcodes.ShiftRight | internal/chip8/opcodes.go:104-108 | 8XY6: Vx = Vy >> 1; VF = Vy & 1, read after Vx is written |
| Opcodes.SubReverse | internal/chip8/opcodes.go:110-119 | 8XY7: VF = 0 iff Vx > Vy, written first, then Vx = (Vy - Vx) mod 256, with the cases for x or y or both equal to VF (8FF7 leaves 0) |
| Opcodes.ShiftLeft | internal/chip8/opcodes.go:121-125 | 8XYE: Vx = (Vy << 1) mod 256; VF = Vy & 0x80 whenever x != y (also for x == VF), read after Vx is written, always 0 or 0x80 |
| Opcodes.SkipIfRegistersNotEqual | internal/chip8/opcodes.go:127-133 | 9XY?: pc += 4 iff Vx != Vy, else pc += 2 |
| Opcodes.SetIndex | internal/chip8/opcodes.go:135-138 | ANNN: I = nnn |
| Opcodes.JumpOffset | internal/chip8/opcodes.go:140-143 | BNNN: pc = nnn + V0 + 2, which never wraps |
| Opcodes.RandomByte | internal/chip8/opcodes.go:145-148 | CXNN: Vx = rnd & nn for the random byte rnd |
| Opcodes.RandomByteWithinMask | internal/chip8/opcodes.go:145-148 | whatever the random byte, CXNN sets no bit outside nn |
| Opcodes.Draw | internal/chip8/opcodes.go:150-155 | DXYN: drawSprite at (Vx, Vy), then pc += 2 |
| Opcodes.SkipIfKey | internal/chip8/opcodes.go:157-164 | EX9E: skip iff keypad[Vx] == 1, and then clear that key; otherwise only pc += 2 |
| Opcodes.SkipIfNotKey | internal/chip8/opcodes.go:166-173 | EXA1: skip iff keypad[Vx] == 0; otherwise clear that key and pc += 2 |
| Opcodes.LoadDelay | internal/chip8/opcodes.go:175-178 | FX07: Vx = dt |
| Opcodes.FirstPressed | internal/chip8/opcodes.go:181-187 | the index of the first key that is down, every earlier key being up, or 16 when none is |
| Opcodes.WaitKey | internal/chip8/opcodes.go:180-190 | FX0A: with no key down nothing changes (pc stays); else Vx = first key down, that key cleared, pc += 2 |
| Opcodes.SetDelay | internal/chip8/opcodes.go:192-195 | FX15: dt = Vx |
| Opcodes.SetSound | internal/chip8/opcodes.go:197-200 | FX18: st = Vx |
| Opcodes.AddIndex | internal/chip8/opcodes.go:202-205 | FX1E: I = (I + Vx) mod 65536, VF untouched |
| Opcodes.FontGlyph | internal/chip8/opcodes.go:207-210 | FX29: I = 5 * Vx, below 0x500 |
| Opcodes.StoreBcd | internal/chip8/opcodes.go:212-217 | FX33: three decimal digits whose value is Vx, at I, I+1, I+2; the rest of memory kept |
| Opcodes.BcdDigits | internal/chip8/opcodes.go:213-215 | the three digits extracted are decimal digits and spell out the value |
| Opcodes.StoreRegisters | internal/chip8/opcodes.go:227-233 | FX55: memory[I + k] = Vk for k <= x, the rest of memory kept |
| Opcodes.LoadRegisters | internal/chip8/opcodes.go:219-225 | FX65: Vk = memory[I + k] for k <= x, higher registers kept |
| Opcodes.StoreThenLoadRegisters | internal/chip8/opcodes.go:219-233 | FX55 then FX65 with the same I and x gives back every register |
| Opcodes.CallThenReturn | internal/chip8/opcodes.go:13-26 | 2NNN then 00EE resumes after the call with sp restored |
| Opcodes.Fields | internal/chip8/opcodes.go:240-243 | nnn is the low 12 bits, and x, nn and y are nested parts of it |
| Opcodes.Decode | internal/chip8/opcodes.go:239-339 | a word is rejected iff it is undefined (class 0x0 other than 00E0/00EE, class 0x8 other than 0-7/E, the 0xE and 0xF low bytes not listed), with the low nibble (class 8) or low byte reported |
| Opcodes.DecodeClass | internal/chip8/opcodes.go:245-336 | the instruction returned has the class nibble switched on; only classes 0x0, 0x8, 0xE and 0xF can reject |
| Opcodes.DecodeSystem | internal/chip8/opcodes.go:246-254 | class 0x0 rejects every low byte but 0xE0 and 0xEE, reporting that byte; otherwise a system instruction whose canonical low byte is the input |
| Opcodes.DecodeArithmetic | internal/chip8/opcodes.go:269-291 | class 0x8 rejects the low nibbles 8-D and F, reporting that nibble; otherwise an arithmetic instruction whose canonical word has nibbles 8, x, y, n |
| Opcodes.DecodeKeys | internal/chip8/opcodes.go:302-310 | class 0xE rejects every low byte but 0x9E and 0xA1, reporting that byte; otherwise a key instruction with the given x and low byte |
| Opcodes.DecodeMisc | internal/chip8/opcodes.go:311-333 | class 0xF rejects every low byte but the nine listed, reporting that byte; otherwise an 0xF instruction with the given x and low byte |
| Opcodes.DecodeEncode | internal/chip8/opcodes.go:245-333 | every instruction's canonical word decodes back to it |
| Opcodes.EncodeDecode | internal/chip8/opcodes.go:240-333 | a decoded word equals its instruction's canonical word except in the bits the switch ignores |
| Opcodes.DecodeClassEncode | internal/chip8/opcodes.go:245-333 | the outer switch maps each canonical word's fields back to its instruction |
| Opcodes.DecodeArithmeticEncode | internal/chip8/opcodes.go:269-291 | the class 0x8 part of DecodeClassEncode |
| Opcodes.DecodeMiscEncode | internal/chip8/opcodes.go:311-333 | the class 0xF part of DecodeClassEncode |
| Opcodes.DecodeSystemKeysEncode | internal/chip8/opcodes.go:246-254 | the classes 0x0 and 0xE part of DecodeClassEncode (00E0, 00EE, EX9E, EXA1) |
| Opcodes.DecodeOuterEncode | internal/chip8/opcodes.go:255-301 | the part of DecodeClassEncode for the classes without an inner switch |
| Opcodes.DecodeAddressEncode | internal/chip8/opcodes.go:255-296 | the part of DecodeOuterEncode for 1NNN, 2NNN, ANNN and BNNN: the address is rebuilt from its three nibbles |
| Opcodes.DecodeByteEncode | internal/chip8/opcodes.go:259-298 | the part of DecodeOuterEncode for 3XNN, 4XNN, 6XNN, 7XNN and CXNN |
| Opcodes.DecodeWord | internal/chip8/opcodes.go:240-245 | decoding a word built from four nibbles switches on the top one, with those fields |
| Opcodes.WordFields | internal/chip8/opcodes.go:240-243 | the fields of a word built from four nibbles are those nibbles |
| Opcodes.DecodedFields | internal/chip8/opcodes.go:245-333 | the canonical word of what the switch returns has the class, x, y and n of the input, except the ignored fields |
| Opcodes.Exec | internal/chip8/opcodes.go:245-333 | the handler call of each case: the opcode is kept, and the draw flag is raised exactly by DXYN |
| Opcodes.ExecOuter | internal/chip8/opcodes.go:255-268 | outer-switch cases 1-7, 9-B and D: the opcode is kept, and the draw flag is raised exactly by DXYN |
| Opcodes.ExecSystem | internal/chip8/opcodes.go:246-254 | class 0x0 changes only the framebuffer, sp and pc |
| Opcodes.ExecArithmetic | internal/chip8/opcodes.go:269-291 | class 0x8 changes only the registers and pc |
| Opcodes.ExecKeys | internal/chip8/opcodes.go:302-310 | class 0xE changes only the keypad and pc |
| Opcodes.ExecMisc | internal/chip8/opcodes.go:311-333 | class 0xF keeps the framebuffer, stack, sp, opcode and draw flag |
| Opcodes.ParseOpcode | internal/chip8/opcodes.go:239-339 | fails iff the word is undefined, with the code unknownOp is given; otherwise the draw flag is raised exactly by DXYN |
| Opcodes.ExecKeepsPixelsBinary | internal/chip8/opcodes.go:8-233 | no instruction leaves a pixel outside {0, 1} |
| Execution.NewVm | internal/chip8/vm.go:118-142 | fails iff the image exceeds maxRomSize; otherwise pc = 0x200, sp = I = dt = st = 0, opcode 0, draw flag lowered, the font at 0, the image at 0x200, zero registers, stack, keypad and framebuffer |
| Execution.NewVmFetchesRom | internal/chip8/vm.go:118-142 | the first word fetched from a new machine is the image's first two bytes |
| Execution.Fetched | internal/chip8/vm.go:168-169 | the fetch half of cycle: opcode = fetched word, draw flag lowered, every other field kept |
| Execution.Cycle | internal/chip8/vm.go:167-174 | the error is reported iff the fetched word is undefined, in which case only the opcode and draw flag change (pc stays); the draw flag after is set exactly by DXYN |
| Execution.LoadImmediateCycle | internal/chip8/vm.go:167-174 | bytes 0x60 0x0A at 0x200 give V0 = 0x0A and pc = 0x202 after one cycle |
| Execution.WaitKeyRepeats | internal/chip8/opcodes.go:180-190 | FX0A with no key down leaves pc unchanged, so every later cycle repeats it |
| Execution.CycleKeepsPixelsBinary | internal/chip8/vm.go:167-174 | no cycle leaves a pixel outside {0, 1} |
| Execution.DelayTicksCountDown | internal/chip8/vm.go:210-214 | after n ticks dt is max(dt - n, 0), and nothing else changes |
| Execution.SoundTicksBeepOnce | internal/chip8/vm.go:216-224 | within n ticks there is exactly one beep iff 0 < st <= n |
| Interpreter.Vm.constructor | internal/chip8/vm.go:124-134 | the zeroed struct with pc = 0x200 |
| Interpreter.Vm.LoadFontSet | internal/chip8/vm.go:109-113 | the copy loop leaves the state `Machine.LoadFontSet` gives |
| Interpreter.Vm.LoadRom | internal/chip8/vm.go:97-105 | refuses an oversized image and changes nothing then; otherwise the copy loop leaves the state `Machine.LoadRom` gives |
| Interpreter.Vm.DelayTimerTick | internal/chip8/vm.go:210-214 | the state `Machine.DelayTimerTick` gives |
| Interpreter.Vm.SoundTimerTick | internal/chip8/vm.go:216-224 | the state and beep `Machine.SoundTimerTick` gives |
| Interpreter.Vm.DrawSprite | internal/chip8/vm.go:232-256 | the arrays after the two nested loops are those of `Machine.DrawSprite` |
| Interpreter.Vm.DrawRows | internal/chip8/vm.go:236-254 | the outer loop draws all `8 * height` slots |
| Interpreter.Vm.DrawRow | internal/chip8/vm.go:237-253 | the inner loop draws the eight slots of one row |
| Interpreter.Vm.DrawPixel | internal/chip8/vm.go:240-252 | one slot: skip an off-screen index, toggle and maybe raise VF otherwise |
| Interpreter.Vm.ClearScreen | internal/chip8/opcodes.go:8-11 | the state `Opcodes.ClearScreen` gives |
| Interpreter.Vm.Return | internal/chip8/opcodes.go:13-16 | the state `Opcodes.Return` gives |
| Interpreter.Vm.Jump | internal/chip8/opcodes.go:18-20 | the state `Opcodes.Jump` gives |
| Interpreter.Vm.Call | internal/chip8/opcodes.go:22-26 | the state `Opcodes.Call` gives |
| Interpreter.Vm.SkipIfEqual | internal/chip8/opcodes.go:28-34 | the state `Opcodes.SkipIfEqual` gives |
| Interpreter.Vm.SkipIfNotEqual | internal/chip8/opcodes.go:36-42 | the state `Opcodes.SkipIfNotEqual` gives |
| Interpreter.Vm.SkipIfRegistersEqual | internal/chip8/opcodes.go:44-50 | the state `Opcodes.SkipIfRegistersEqual` gives |
| Interpreter.Vm.LoadByte | internal/chip8/opcodes.go:52-55 | the state `Opcodes.LoadByte` gives |
| Interpreter.Vm.AddByte | internal/chip8/opcodes.go:57-60 | the state `Opcodes.AddByte` gives |
| Interpreter.Vm.Move | internal/chip8/opcodes.go:62-65 | the state `Opcodes.Move` gives |
| Interpreter.Vm.Or | internal/chip8/opcodes.go:67-70 | the state `Opcodes.Or` gives |
| Interpreter.Vm.And | internal/chip8/opcodes.go:72-75 | the state `Opcodes.And` gives |
| Interpreter.Vm.Xor | internal/chip8/opcodes.go:77-80 | the state `Opcodes.Xor` gives |
| Interpreter.Vm.AddRegisters | internal/chip8/opcodes.go:82-91 | the state `Opcodes.AddRegisters` gives, in the order the Go statements run |
| Interpreter.Vm.SubRegisters | internal/chip8/opcodes.go:93-102 | the state `Opcodes.SubRegisters` gives, in the order the Go statements run |
| Interpreter.Vm.ShiftRight | internal/chip8/opcodes.go:104-108 | the state `Opcodes.ShiftRight` gives |
| Interpreter.Vm.SubReverse | internal/chip8/opcodes.go:110-119 | the state `Opcodes.SubReverse` gives |
| Interpreter.Vm.ShiftLeft | internal/chip8/opcodes.go:121-125 | the state `Opcodes.ShiftLeft` gives |
| Interpreter.Vm.SkipIfRegistersNotEqual | internal/chip8/opcodes.go:127-133 | the state `Opcodes.SkipIfRegistersNotEqual` gives |
| Interpreter.Vm.SetIndex | internal/chip8/opcodes.go:135-138 | the state `Opcodes.SetIndex` gives |
| Interpreter.Vm.JumpOffset | internal/chip8/opcodes.go:140-143 | the state `Opcodes.JumpOffset` gives |
| Interpreter.Vm.RandomByte | internal/chip8/opcodes.go:145-148 | the state `Opcodes.RandomByte` gives for the random byte |
| Interpreter.Vm.Draw | internal/chip8/opcodes.go:150-155 | the state `Opcodes.Draw` gives |
| Interpreter.Vm.SkipIfKey | internal/chip8/opcodes.go:157-164 | the state `Opcodes.SkipIfKey` gives |
| Interpreter.Vm.SkipIfNotKey | internal/chip8/opcodes.go:166-173 | the state `Opcodes.SkipIfNotKey` gives |
| Interpreter.Vm.LoadDelay | internal/chip8/opcodes.go:175-178 | the state `Opcodes.LoadDelay` gives |
| Interpreter.Vm.WaitKey | internal/chip8/opcodes.go:180-190 | the keypad scan loop, and the clear after it, leave the state `Opcodes.WaitKey` gives |
| Interpreter.Vm.SetDelay | internal/chip8/opcodes.go:192-195 | the state `Opcodes.SetDelay` gives |
| Interpreter.Vm.SetSound | internal/chip8/opcodes.go:197-200 | the state `Opcodes.SetSound` gives |
| Interpreter.Vm.AddIndex | internal/chip8/opcodes.go:202-205 | the state `Opcodes.AddIndex` gives |
| Interpreter.Vm.FontGlyph | internal/chip8/opcodes.go:207-210 | the state `Opcodes.FontGlyph` gives |
| Interpreter.Vm.StoreBcd | internal/chip8/opcodes.go:212-217 | the state `Opcodes.StoreBcd` gives |
| Interpreter.Vm.StoreRegisters | internal/chip8/opcodes.go:227-233 | the copy loop leaves the state `Opcodes.StoreRegisters` gives |
| Interpreter.Vm.LoadRegisters | internal/chip8/opcodes.go:219-225 | the copy loop leaves the state `Opcodes.LoadRegisters` gives |
| Interpreter.Vm.ParseOpcode | internal/chip8/opcodes.go:239-339 | an undefined word returns the unknownOp error and changes nothing; otherwise the state `Opcodes.ParseOpcode` gives |
| Interpreter.Vm.Execute | internal/chip8/opcodes.go:245-333 | the handler call of each case gives the state `Opcodes.Exec` gives |
| Interpreter.Vm.ExecuteSystem | internal/chip8/opcodes.go:246-254 | the inner switch of class 0x0 gives `Opcodes.ExecSystem` |
| Interpreter.Vm.ExecuteOuter | internal/chip8/opcodes.go:255-301 | the direct cases of the outer switch give `Opcodes.ExecOuter` |
| Interpreter.Vm.ExecuteFlow | internal/chip8/opcodes.go:255-268 | cases 0x1 to 0x7 give `Opcodes.ExecOuter` |
| Interpreter.Vm.ExecuteArithmetic | internal/chip8/opcodes.go:269-291 | the inner switch of class 0x8 gives `Opcodes.ExecArithmetic` |
| Interpreter.Vm.ExecuteLogic | internal/chip8/opcodes.go:271-278 | cases 8XY0 to 8XY3 give `Opcodes.ExecArithmetic` |
| Interpreter.Vm.ExecuteKeys | internal/chip8/opcodes.go:302-310 | the inner switch of class 0xE gives `Opcodes.ExecKeys` |
| Interpreter.Vm.ExecuteMisc | internal/chip8/opcodes.go:311-333 | the inner switch of class 0xF gives `Opcodes.ExecMisc` |
| Interpreter.Vm.ExecuteTimers | internal/chip8/opcodes.go:313-320 | cases FX07 to FX18 give `Opcodes.ExecMisc` |
| Interpreter.Vm.Cycle | internal/chip8/vm.go:167-174 | fetch, lower the draw flag and parseOpcode give the state and error `Execution.Cycle` gives |
| Interpreter.NewVm | internal/chip8/vm.go:118-142 | fails with the same error as `Execution.NewVm`; otherwise the new machine and its arrays are freshly allocated and its state is that value |

## Left out

- `Run`, `update`, `handleKeyInput` and `shutdown` are left out (the clock ticker loop, the video window, keyboard polling and the channels). The keypad is a plain array that the model reads and the handlers clear.
- The audio channel send in `soundTimerTick` is left out. The method returns a `beep` flag instead.
- main.go, `newVideo` and its error are left out.
- Reading the ROM file (and its I/O error) is left out. `loadROM` is modelled from the bytes read and returns only the size error.
- `rand.Float32` in CXNN is left out. `byte(rand.Float32()*255)` becomes the parameter `rnd`, passed down from `Cycle`. The model allows any byte, including 255, which the float conversion cannot produce.
- The file that defines `fontSet` is not part of this model. The font is a parameter of at most 4096 bytes; NewVm copies whatever it is given.
- The `fmt` error text of `unknownOp` and of `loadROM`, and the `Printf` in `cycle`, are left out. Errors are the values `UnknownOpcode(code)` and `RomTooLarge`.
- Go's run-time index panics are preconditions. `Defined` and `CanCycle` state when a handler or a cycle indexes no array out of range:
  - the stack for 00EE and 2NNN;
  - memory for DXYN, FX33, FX55 and FX65;
  - the keypad for EX9E, EXA1 and FX0A;
  - memory[pc + 1] for the fetch.

  Behaviour past a panic is not modelled.
- `uint16(a)<<8 | uint16(b)` is modelled as `a * 256 + b`. The two halves do not overlap, so the two are equal.
- DrawSprite: the `uint16` pixel index `x + j + (y + i) * 64` is not reduced modulo 65536. It is at most 17542 for byte coordinates, so it never wraps.
- Timing and concurrency: the clock speed, the 60 Hz timer rate and the interleaving of cycles with timer ticks are left out. Execution is sequential.

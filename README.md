# An 8-bit virtual CPU

This project models the emulator in `main.go`. The emulator is a byte-code machine with these parts:

- a 65536-byte program store (`rom`);
- 256 bytes of working memory (`ram`);
- sixteen 8-bit registers (`reg`);
- a signed 16-bit program pointer;
- a pending-load flag with its remembered register (`loadAsData`, `selReg`).

A program arrives as a hex string. The loader `new` decodes it with Base 16 as defined in section 8 of RFC 4648, case-insensitively. It fails on malformed hex and on more than 65536 bytes. Otherwise it places the bytes at the front of a zeroed store.

`DoCycle` fetches one byte and advances the pointer. It then does one of two things:

- If a load is pending, it stores the byte verbatim into the remembered register.
- Otherwise it splits the byte into an opcode (high nibble) and a register index (low nibble), and performs one of fourteen operations.

The entry point loads a sixteen-byte sample and runs cycles while they keep running and the pointer is below 100. It then reads the move register.

The modules:

- `Base`: the byte type, the int16 type with explicit two's-complement wrap-around, and `Option` and `Result`.
- `Bits`: Go's `|`, `&` and `^` on bytes, defined bit by bit, with the mask identities the emulator relies on.
- `Hex`: the Base 16 decoder and its lower-case encoder, proved inverse to each other.
- `Emulator`:
  - the machine state as a value (`State`);
  - one cycle as a function (`Step`);
  - the bounded run loop as a function (`Execute`);
  - the class `CPU`, whose array fields are updated in place. Its methods `DoCycle` and `Run` are proved to follow `Step` and `Execute`. The loader is `New`.
  - `DoCycle` uses Go's operators (`& 0x0F`, `^ 0xFF`, `& 0x01`, the two int16 jump steps). `Step` states the same results arithmetically (`% 16`, `255 - v`, `% 2`, `JumpTarget`). Lemmas in `Bits` and `Emulator` prove the two forms agree.
- `Instructions`: what each opcode does to the machine, stated on `Step`.
- `Sample`: the sample program of the entry point. It loads, halts after fourteen cycles, and leaves 0xFF in the move register.

Some consequences of the code that are easy to miss:

- **Opcode 0x0 halts.** `nothingInstruction` (main.go:10) is declared, but no `case` of the dispatcher names it, so byte 0x0R reaches the halting `default` (main.go:124-125).
- **A halting cycle still changes state.** The pointer has already advanced and `selReg` already holds the low nibble (main.go:70-71, 84). Registers and memory are untouched.
- **The jump target is signed.** The code computes `int16(high) << 8` and then `+= int16(low)`, both in wrapping int16 arithmetic (main.go:121-122). So a high byte of 0x80 or more gives a negative pointer, and the next fetch `c.rom[c.pointer]` (main.go:70) panics.
- **The register accessor is not total.** Its guard `reg > len(c.reg)` (main.go:131) returns 0 only for indices above 16; index 16 and negative indices reach `c.reg[reg]` (main.go:134), which panics on a 16-element slice. See "## Findings".

## Model

| member | source | states |
|---|---|---|
| Base.Wrap16 | main.go:41 | The int16 value congruent to `x` modulo 2^16; equal to `x` when in range, shifted down by 2^16 when the residue is 0x8000 or more |
| Base.Inc16Wraps | main.go:71 | Stepping the pointer (0x7FFF to -0x8000, otherwise one more) is Go's wrapping int16 `+ 1` |
| Bits.ByteOp | main.go:101-107 | Every one of the eight bits of `a op b` is the operator applied to the operands' bits |
| Bits.ByteMasks | main.go:84 | `a & 0x0F == a % 16`, `a & 0x01 == a % 2` and `a ^ 0xFF == 255 - a` for every byte (the masks of main.go:84, 117 and 101) |
| Hex.Decode | main.go:47 | Succeeds exactly on even-length strings of hex digits of either case; yields `|s|/2` bytes, byte k being `16*digit(s[2k]) + digit(s[2k+1])` |
| Hex.DecodeEncode | main.go:47 | Decoding the lower-case encoding of any byte sequence gives that sequence back |
| Hex.EncodeDecode | main.go:47 | Encoding a decoded string gives the string with its letters lowered: decoding is case-insensitive and loses nothing else |
| Hex.DecodesTo | main.go:47 | A byte sequence that matches a hex string pair by pair is its decoding |
| Emulator.Initial | main.go:55-65 | The program at the front of a 65536-byte store and zeros after it; every memory cell and every register 0; pointer 0, flag clear, `selReg` 0 |
| Emulator.Boot | main.go:46-66 | Ok exactly for valid hex of at most 65536 bytes; InvalidHex exactly for invalid hex; otherwise RomTooLarge with the decoded size; on Ok, the initial machine holding the decoded bytes |
| Emulator.New | main.go:46-66 | Returns a fresh CPU exactly when `Boot` succeeds, with the same error otherwise, and the new CPU's state is `Boot`'s |
| Emulator.CPU.constructor | main.go:55-65 | The fresh arrays hold `Initial(program)` |
| Emulator.Opcode | main.go:84-85 | `instruction >> 4` is below 16, and `16 * opcode + (instruction & 0x0F)` rebuilds the byte |
| Emulator.ShiftLeft | main.go:99 | `v << 1` on a byte doubles below 0x80 and drops the top bit otherwise |
| Emulator.JumpTarget | main.go:121-122 | The signed target is non-negative exactly when `high < 0x80` |
| Emulator.JumpTargetWraps | main.go:121-122 | Go's two wrapping int16 steps `int16(high) << 8`, `+= int16(low)` give `JumpTarget`, which is `high*256 + low` modulo 2^16 |
| Emulator.Step | main.go:68-128 | A cycle keeps the store and well-formedness; a set flag implies running with `selReg` the target; a halt leaves registers and memory alone; only the addressed memory cell, the move register and the target register can change |
| Emulator.CPU.DoCycle | main.go:68-128 | The cycle on the arrays and fields returns and leaves exactly what `Step` gives for the old state |
| Emulator.Execute | main.go:164-167 | Each outcome's stopping condition holds of the final state: pointer at or past 100; negative pointer; fuel spent with the pointer in range; or a halting cycle, meaning no load pending, the pointer within 1..100 just past a byte of opcode 0x0 or 0xF whose low nibble is `selReg`. The store never changes; with no fuel nothing runs |
| Emulator.Advance | main.go:166 | One turn of the loop keeps the store and ends in a final state that meets its outcome's stopping condition, a halt being just past a byte of opcode 0x0 or 0xF |
| Emulator.FuelMono | main.go:164-167 | The cycle budget only cuts a run short: a run that ends other than by spent fuel ends identically with any larger budget, as the unbounded Go loop would |
| Emulator.ExecuteStep | main.go:165-166 | Unfolding of `Execute` for one turn of the loop (a proof step): a running cycle leaves the rest to the remaining fuel, a halting one ends the run |
| Emulator.ExecuteStops | main.go:165 | Unfolding of `Execute` when the loop test fails (a proof step): the run stops at once, state untouched, in the matching outcome |
| Emulator.CPU.Run | main.go:164-167 | The loop over `DoCycle` returns the outcome and leaves the state that `Execute` gives for the old state |
| Emulator.CPU.Turn | main.go:166 | One `DoCycle` inside the loop: a running cycle leaves the rest of the run to one cycle less; a halting one is the end of the run |
| Emulator.CPU.Stop | main.go:165 | When the loop test fails, the outcome named is the one `Execute` gives for the current state |
| Emulator.CPU.GetRegister | main.go:130-135 | For indices it does not panic on: 0 above 16, the register below 16 |
| Emulator.GuardAdmitsOutOfRange | main.go:131 | Among the indices outside the register file, the guard admits exactly 16 and the negatives |
| Emulator.CPU.ReadRegister | main.go:130-135 | The accessor as intended: the register for 0..15, 0 for every other index |
| Instructions.CycleAdvancesPointer | main.go:70-71 | Every cycle other than a skip or a jump advances the pointer by exactly one, with int16 wrap |
| Instructions.HaltingCycle | main.go:87-126 | A cycle halts iff it decodes opcode 0x0 or 0xF; it has then advanced the pointer and set `selReg`, and changed nothing else |
| Instructions.FlagOnlyFromLoad | main.go:74-89 | After any cycle the pending-load flag is set exactly when no load was pending and the byte decoded to opcode 0x1 |
| Instructions.SelRegAfterCycle | main.go:74-84 | After any cycle `selReg` is 0 if the byte was the data of a pending load, and otherwise the low nibble of the byte |
| Instructions.LoadImmediate | main.go:74-81 | Byte `0x1R` arms the load; the next byte goes verbatim into register R, and the flag and `selReg` are cleared |
| Instructions.LoadRam | main.go:90-91 | Register R receives memory at register 2; no other register, no memory cell changes; the pointer advances by one, `selReg` becomes R and no load is armed |
| Instructions.WriteRam | main.go:92-93 | Memory at register 2 (always in range) receives register R; no other cell and no register changes; the pointer advances by one, `selReg` becomes R and no load is armed |
| Instructions.MoveSwaps | main.go:94-97 | Register 3 and register R are exchanged; the other registers and memory are unchanged; the pointer advances by one, `selReg` becomes R and no load is armed |
| Instructions.MoveTwiceRestores | main.go:94-97 | The same move executed twice restores every register |
| Instructions.ArithmeticWraps | main.go:98-111 | Shift, invert, add and subtract write register R modulo 256; the other registers and memory are unchanged, the pointer advances by one, `selReg` becomes R and no load is armed; invert is `^ 0xFF`, which is `255 - v` |
| Instructions.LogicIsBitwise | main.go:102-107 | Or, and and xor write register R bit by bit from registers 0 and 1; the other registers and memory are unchanged, the pointer advances by one, `selReg` becomes R and no load is armed |
| Instructions.AddSubExamples | main.go:108-111 | 0xFF + 0x02 is 0x01 and 0xFF - 0x02 is 0xFD |
| Instructions.CompareSetsOrKeeps | main.go:112-115 | Register R becomes 1 when register 0 > register 1, and is otherwise unchanged; nothing else changes but the pointer, by one, and `selReg`, which becomes R; no load is armed |
| Instructions.SkipIfOdd | main.go:116-119 | The pointer advances by two exactly when `reg[R] & 0x01 == 0x01`, that is when register R is odd, and by one otherwise; registers and memory are unchanged, `selReg` becomes R and no load is armed |
| Instructions.JumpSetsPointer | main.go:120-123 | The pointer becomes the signed `reg[4]*256 + reg[R]`, non-negative exactly when reg[4] < 0x80; registers and memory are unchanged, `selReg` becomes R and no load is armed |
| Sample.SampleLoads | main.go:139-159 | The sample string boots to the initial machine holding its sixteen bytes |
| Sample.SampleTrace | main.go:163-167 | With enough fuel, the sample halts with pointer 16, reg[5] = 1, reg[3] = 0xFF and ram[0] = 0xFF |
| Sample.ExpectedRun | main.go:163-167 | From any intermediate cycle the sample runs on to the same halting state |
| Sample.RunSample | main.go:137-171 | The entry point halts and reads 0xFF from the move register through the accessor as written |

## Left out

- Console output (`fmt.Println` at main.go:58, 138, 156, 169-170) is not modelled.
- `panic(err)` in the entry point is not modelled: the sample is proved to load, so it cannot happen.
- The capacity error's message text is not modelled; the error carries the decoded size instead. Go's `2^16` in that text is exclusive-or and gives 18, which changes nothing the program does.
- Go's `hex.DecodeString` errors (`ErrLength`, `InvalidByteError`) are merged into one `InvalidHex`.
- `math.Pow(2.0, 16.0)` is the exact constant 65536 here; floating point is not modelled.
- Emulator.Execute: the Go loop has no cycle bound and can run forever on a backward jump. The model takes a `fuel` count, and `OutOfFuel` is its own outcome.
- Emulator.Execute: a fetch at a negative pointer panics in Go. The model stops there with the `Panicked` outcome.
- Emulator.CPU.DoCycle: requires a non-negative pointer, the case where Go's fetch does not panic.
- Emulator.CPU.GetRegister: requires an index other than 16 and not negative, since Go panics on those. Its weaker promise is completed by `ReadRegister`.

## Findings

| source | as written | input that shows it | evidently intended | confidence | as-written member | corrected member |
|---|---|---|---|---|---|---|
| main.go:131 | `if reg > len(c.reg)` admits index 16 and negative indices to `c.reg[reg]` | index 16 (or -1): the guard passes and the slice access panics | return 0 for every index outside 0..15 (`reg < 0 \|\| reg >= len(c.reg)`) | not executed | Emulator.GuardAdmitsOutOfRange | Emulator.CPU.ReadRegister |

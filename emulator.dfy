/** The 8-bit virtual CPU: a 64 KiB program store (`rom`), 256 bytes of
    working memory (`ram`), sixteen one-byte registers, a signed 16-bit
    program pointer and the pending-load flag of the two-byte immediate load.

    The pure part states what one fetch-decode-execute cycle does to the
    machine as a function `Step` on `State` values; the class `CPU` holds the
    same state in arrays and fields, and its methods, which change that state
    in place as the program does, are proved to agree with `Step`. */
module Emulator {
  import opened Base
  import opened Bits
  import Hex

  // Opcodes: the high nibble of an instruction byte.
  /** Declared by the program but handled by no case of the dispatcher, so
      opcode 0x0 falls through to the halting default like 0xF. */
  const NothingInstruction: Byte := 0x00
  const LoadRegInstruction: Byte := 0x01
  const LoadRamInstruction: Byte := 0x02
  const WriteRamInstruction: Byte := 0x03
  const MoveInstruction: Byte := 0x04
  const BitshiftInstruction: Byte := 0x05
  const InvertInstruction: Byte := 0x06
  const OrInstruction: Byte := 0x07
  const AndInstruction: Byte := 0x08
  const XorInstruction: Byte := 0x09
  const AddInstruction: Byte := 0x0A
  const SubInstruction: Byte := 0x0B
  const CompareInstruction: Byte := 0x0C
  const SkipInstruction: Byte := 0x0D
  const JumpInstruction: Byte := 0x0E

  // Registers with a fixed role.
  const Operation1Reg := 0
  const Operation2Reg := 1
  const RamAddressReg := 2
  const MoveReg := 3
  const JumpReg := 4

  /** 2^16 bytes of program store. */
  const RomSize := 0x1_0000
  const RamSize := 0x100
  const RegCount := 16

  /** The run loop of the entry point stops once the pointer reaches this. */
  const PointerBound: Int16 := 100

  function Zeros(n: nat): (z: seq<Byte>)
    ensures |z| == n && forall i :: 0 <= i < n ==> z[i] == 0
  {
    seq(n, _ => 0)
  }

  /** The whole machine as a value. `selReg` is the register selected by the
      last decoded instruction, and the target of a pending immediate load. */
  datatype State = State(rom: seq<Byte>, ram: seq<Byte>, reg: seq<Byte>,
                         pointer: Int16, loadAsData: bool, selReg: Byte)
  {
    predicate WellFormed() {
      |rom| == RomSize && |ram| == RamSize && |reg| == RegCount && selReg < RegCount
    }
  }

  /** What a cycle returns (keep running or halt) and the state it leaves. */
  datatype Cycle = Cycle(running: bool, next: State)

  /** The machine that loading `program` yields: the program left-aligned in a
      zeroed store, zeroed memory and registers, the pointer at 0. */
  function Initial(program: seq<Byte>): (s: State)
    requires |program| <= RomSize
    ensures s.WellFormed()
    ensures s.rom[..|program|] == program && forall i :: |program| <= i < RomSize ==> s.rom[i] == 0
    ensures forall a :: 0 <= a < RamSize ==> s.ram[a] == 0
    ensures forall i :: 0 <= i < RegCount ==> s.reg[i] == 0
    ensures s.pointer == 0 && !s.loadAsData && s.selReg == 0
  {
    State(program + Zeros(RomSize - |program|), Zeros(RamSize), Zeros(RegCount), 0, false, 0)
  }

  datatype LoadError = InvalidHex | RomTooLarge(size: nat)

  /** What loading a hex-encoded program yields: the decoding error, the
      capacity error, or the initial machine. */
  function Boot(hexRom: string): (r: Result<State, LoadError>)
    ensures r.Ok? <==> Hex.IsHexString(hexRom) && |hexRom| / 2 <= RomSize
    ensures r == Err(InvalidHex) <==> !Hex.IsHexString(hexRom)
    ensures r.Err? && r.error.RomTooLarge? ==> r.error.size == |hexRom| / 2 > RomSize
    ensures r.Ok? ==> r.value.WellFormed() && r.value == Initial(Hex.Decode(hexRom).value)
    ensures r.Ok? ==> forall i :: |hexRom| / 2 <= i < RomSize ==> r.value.rom[i] == 0
    ensures r.Ok? ==> r.value.ram == Zeros(RamSize) && r.value.reg == Zeros(RegCount)
    ensures r.Ok? ==> r.value.pointer == 0 && !r.value.loadAsData
  {
    match Hex.Decode(hexRom)
    case None => Err(InvalidHex)
    case Some(data) =>
      if |data| > RomSize then Err(RomTooLarge(|data|)) else Ok(Initial(data))
  }

  /** The register-select half of an instruction byte; Go takes it as
      `instruction & 0x0F`, which `Bits.ByteMasks` shows is the same. */
  function Operand(instruction: Byte): Byte {
    instruction % 16
  }

  /** The opcode half of an instruction byte, `instruction >> 4`. */
  function Opcode(instruction: Byte): (op: Byte)
    ensures op < 16 && 16 * op + Operand(instruction) == instruction
  {
    instruction / 16
  }

  /** `v << 1` on a byte: the bit shifted out is lost. */
  function ShiftLeft(v: Byte): (r: Byte)
    ensures r == if v < 0x80 then 2 * v else 2 * v - 0x100
  {
    (v as int * 2) % 0x100
  }

  /** The jump target: `high * 256 + low` read as a signed 16-bit number,
      so it is negative exactly when the high byte has its top bit set. */
  function JumpTarget(high: Byte, low: Byte): (t: Int16)
    ensures t >= 0 <==> high < 0x80
  {
    var v := high as int * 0x100 + low;
    if high < 0x80 then v as Int16 else (v - 0x1_0000) as Int16
  }

  /** Go computes the target in two int16 steps, `int16(high) << 8` and then
      `+= int16(low)`, each wrapping; the result is `JumpTarget`, which is
      `high * 256 + low` modulo 2^16. */
  lemma JumpTargetWraps(high: Byte, low: Byte)
    ensures Wrap16(Wrap16(high as int * 0x100) as int + low) == JumpTarget(high, low)
    ensures JumpTarget(high, low) as int % 0x1_0000 == high as int * 0x100 + low
  {
  }

  /** The byte at the pointer. */
  function Fetch(s: State): Byte
    requires s.WellFormed() && s.pointer >= 0
  {
    s.rom[s.pointer as int]
  }

  /** The register a cycle may write besides the move register: the pending
      load's target, or else the low nibble of the fetched byte. */
  function Target(s: State): (r: int)
    requires s.WellFormed() && s.pointer >= 0
    ensures 0 <= r < RegCount
  {
    if s.loadAsData then s.selReg else Operand(Fetch(s))
  }

  /** One fetch-decode-execute cycle.  The pointer advances before anything
      else; a pending load stores the fetched byte verbatim; otherwise the
      low nibble becomes `selReg` and the high nibble selects the operation.
      Opcodes 0x0 and 0xF halt, after the pointer and `selReg` have changed. */
  function Step(s: State): (c: Cycle)
    requires s.WellFormed() && s.pointer >= 0
    ensures c.next.WellFormed() && c.next.rom == s.rom
    ensures c.next.loadAsData ==> c.running && c.next.selReg == Target(s)
    ensures !c.running ==> !s.loadAsData && c.next.reg == s.reg && c.next.ram == s.ram
    ensures forall a :: 0 <= a < RamSize && a != s.reg[RamAddressReg] ==> c.next.ram[a] == s.ram[a]
    ensures forall i :: 0 <= i < RegCount && i != MoveReg && i != Target(s) ==> c.next.reg[i] == s.reg[i]
  {
    var instruction := Fetch(s);
    var fetched := s.(pointer := Inc16(s.pointer));
    if fetched.loadAsData then
      Cycle(true, fetched.(reg := fetched.reg[fetched.selReg := instruction], loadAsData := false, selReg := 0))
    else
      var sel := Operand(instruction);
      var d := fetched.(selReg := sel);
      var x, y := d.reg[Operation1Reg], d.reg[Operation2Reg];
      var op := Opcode(instruction);
      if op == LoadRegInstruction then Cycle(true, d.(loadAsData := true))
      else if op == LoadRamInstruction then Cycle(true, d.(reg := d.reg[sel := d.ram[d.reg[RamAddressReg]]]))
      else if op == WriteRamInstruction then Cycle(true, d.(ram := d.ram[d.reg[RamAddressReg] := d.reg[sel]]))
      else if op == MoveInstruction then Cycle(true, d.(reg := d.reg[MoveReg := d.reg[sel]][sel := d.reg[MoveReg]]))
      else if op == BitshiftInstruction then Cycle(true, d.(reg := d.reg[sel := ShiftLeft(d.reg[sel])]))
      else if op == InvertInstruction then Cycle(true, d.(reg := d.reg[sel := 0xFF - d.reg[sel]]))
      else if op == OrInstruction then Cycle(true, d.(reg := d.reg[sel := ByteOp(Or, x, y)]))
      else if op == AndInstruction then Cycle(true, d.(reg := d.reg[sel := ByteOp(And, x, y)]))
      else if op == XorInstruction then Cycle(true, d.(reg := d.reg[sel := ByteOp(Xor, x, y)]))
      else if op == AddInstruction then Cycle(true, d.(reg := d.reg[sel := (x as int + y as int) % 0x100]))
      else if op == SubInstruction then Cycle(true, d.(reg := d.reg[sel := (x as int - y as int) % 0x100]))
      else if op == CompareInstruction then Cycle(true, if x > y then d.(reg := d.reg[sel := 0x01]) else d)
      else if op == SkipInstruction then Cycle(true, if d.reg[sel] % 2 == 1 then d.(pointer := Inc16(d.pointer)) else d)
      else if op == JumpInstruction then Cycle(true, d.(pointer := JumpTarget(d.reg[JumpReg], d.reg[sel])))
      else Cycle(false, d)
  }

  /** How the bounded run loop ended: a cycle halted, the pointer reached the
      bound, the pointer was negative (the program's store access would
      panic), or the cycle budget ran out. */
  datatype Outcome = Halted | PointerLimit | Panicked | OutOfFuel

  datatype RunResult = RunResult(outcome: Outcome, final: State)

  /** The run loop of the entry point, `for run && pointer < 100 { run = DoCycle() }`,
      with at most `fuel` cycles: the loop test, then a turn of the loop. */
  function Execute(s: State, fuel: nat): (r: RunResult)
    requires s.WellFormed()
    ensures r.final.WellFormed() && r.final.rom == s.rom
    ensures r.outcome == PointerLimit ==> r.final.pointer >= PointerBound
    ensures r.outcome == Panicked ==> r.final.pointer < 0
    ensures r.outcome == OutOfFuel ==> 0 <= r.final.pointer < PointerBound
    ensures r.outcome == Halted ==> !r.final.loadAsData
    ensures r.outcome == Halted ==>
              && 1 <= r.final.pointer <= PointerBound
              && Opcode(r.final.rom[r.final.pointer as int - 1]) in {NothingInstruction, 0x0F}
              && r.final.selReg == r.final.rom[r.final.pointer as int - 1] % 16
    ensures fuel == 0 ==> r.outcome != Halted && r.final == s
    decreases fuel, 1
  {
    if s.pointer >= PointerBound then RunResult(PointerLimit, s)
    else if s.pointer < 0 then RunResult(Panicked, s)
    else if fuel == 0 then RunResult(OutOfFuel, s)
    else Advance(s, fuel)
  }

  /** The body of the run loop: one cycle, after which a halt ends the run
      and otherwise the loop goes on with one cycle less. */
  function Advance(s: State, fuel: nat): (r: RunResult)
    requires s.WellFormed() && 0 <= s.pointer < PointerBound && fuel > 0
    ensures r.final.WellFormed() && r.final.rom == s.rom
    ensures r.outcome == PointerLimit ==> r.final.pointer >= PointerBound
    ensures r.outcome == Panicked ==> r.final.pointer < 0
    ensures r.outcome == OutOfFuel ==> 0 <= r.final.pointer < PointerBound
    ensures r.outcome == Halted ==> !r.final.loadAsData
    ensures r.outcome == Halted ==>
              && 1 <= r.final.pointer <= PointerBound
              && Opcode(r.final.rom[r.final.pointer as int - 1]) in {NothingInstruction, 0x0F}
              && r.final.selReg == r.final.rom[r.final.pointer as int - 1] % 16
    decreases fuel, 0
  {
    var c := Step(s);
    if !c.running then RunResult(Halted, c.next) else Execute(c.next, fuel - 1)
  }

  /** One turn of the run loop: a cycle that keeps running leaves the rest of
      the run to the remaining fuel, and a cycle that halts ends it. */
  lemma ExecuteStep(s: State, fuel: nat)
    requires s.WellFormed() && 0 <= s.pointer < PointerBound && fuel > 0
    ensures var c := Step(s);
            Execute(s, fuel) == if c.running then Execute(c.next, fuel - 1) else RunResult(Halted, c.next)
  {
  }

  /** The run loop stops without a cycle when the pointer is out of its range
      or the fuel is spent. */
  lemma ExecuteStops(s: State, fuel: nat)
    requires s.WellFormed() && (s.pointer >= PointerBound || s.pointer < 0 || fuel == 0)
    ensures Execute(s, fuel).final == s
    ensures Execute(s, fuel).outcome ==
      if s.pointer >= PointerBound then PointerLimit else if s.pointer < 0 then Panicked else OutOfFuel
  {
  }

  /** The fuel bound only cuts a run short: once a run ends for any other
      reason than spent fuel, more fuel gives the same outcome and state. */
  lemma {:induction false} FuelMono(s: State, f: nat, g: nat)
    requires s.WellFormed() && f <= g && Execute(s, f).outcome != OutOfFuel
    ensures Execute(s, g) == Execute(s, f)
    decreases f
  {
    if 0 <= s.pointer < PointerBound {
      ExecuteStep(s, f);
      ExecuteStep(s, g);
      var c := Step(s);
      if c.running {
        FuelMono(c.next, f - 1, g - 1);
      }
    }
  }

  /** The bounds test of `getRegister` as written: the index reaches the
      register slice whenever this holds. */
  predicate PassesRegisterGuard(index: int) {
    !(index > RegCount)
  }

  /** The accessor's guard lets through exactly index 16 and the negative
      indices among those outside the register file. */
  lemma GuardAdmitsOutOfRange(index: int)
    ensures PassesRegisterGuard(index) && !(0 <= index < RegCount) <==> index < 0 || index == RegCount
  {
  }

  class CPU {
    const rom: array<Byte>
    const ram: array<Byte>
    const reg: array<Byte>
    var pointer: Int16
    var loadAsData: bool
    var selReg: Byte

    ghost predicate Valid()
      reads this
    {
      rom.Length == RomSize && ram.Length == RamSize && reg.Length == RegCount && selReg < RegCount
    }

    /** The machine's state as a value. */
    ghost function View(): (s: State)
      reads this, rom, ram, reg
      requires Valid()
      ensures s.WellFormed()
    {
      State(rom[..], ram[..], reg[..], pointer, loadAsData, selReg)
    }

    /** Allocates a zeroed store and copies the program to its front. */
    constructor (program: seq<Byte>)
      requires |program| <= RomSize
      ensures Valid() && fresh(rom) && fresh(ram) && fresh(reg)
      ensures View() == Initial(program)
    {
      var image := new Byte[RomSize](_ => 0);
      for i := 0 to |program|
        invariant forall j :: 0 <= j < i ==> image[j] == program[j]
        invariant forall j :: i <= j < RomSize ==> image[j] == 0
      {
        image[i] := program[i];
      }
      rom := image;
      ram := new Byte[RamSize](_ => 0);
      reg := new Byte[RegCount](_ => 0);
      pointer, loadAsData, selReg := 0, false, 0;
      new;
      assert rom[..] == Initial(program).rom;
    }

    /** One fetch-decode-execute cycle; returns false on a halting opcode. */
    method DoCycle() returns (running: bool)
      requires Valid() && pointer >= 0
      modifies this, ram, reg
      ensures Valid()
      ensures Cycle(running, View()) == Step(old(View()))
    {
      var instruction := rom[pointer as int];
      pointer := Inc16(pointer);

      if loadAsData {
        reg[selReg] := instruction;
        loadAsData := false;
        selReg := 0;
        return true;
      }

      ByteMasks(instruction);
      selReg := ByteOp(And, instruction, 0x0F);
      instruction := instruction / 16;

      running := true;
      if instruction == LoadRegInstruction {
        loadAsData := true;
      } else if instruction == LoadRamInstruction {
        reg[selReg] := ram[reg[RamAddressReg]];
      } else if instruction == WriteRamInstruction {
        ram[reg[RamAddressReg]] := reg[selReg];
      } else if instruction == MoveInstruction {
        var tmp := reg[MoveReg];
        reg[MoveReg] := reg[selReg];
        reg[selReg] := tmp;
      } else if instruction == BitshiftInstruction {
        reg[selReg] := ShiftLeft(reg[selReg]);
      } else if instruction == InvertInstruction {
        ByteMasks(reg[selReg]);
        reg[selReg] := ByteOp(Xor, reg[selReg], 0xFF);
      } else if instruction == OrInstruction {
        reg[selReg] := ByteOp(Or, reg[Operation1Reg], reg[Operation2Reg]);
      } else if instruction == AndInstruction {
        reg[selReg] := ByteOp(And, reg[Operation1Reg], reg[Operation2Reg]);
      } else if instruction == XorInstruction {
        reg[selReg] := ByteOp(Xor, reg[Operation1Reg], reg[Operation2Reg]);
      } else if instruction == AddInstruction {
        reg[selReg] := (reg[Operation1Reg] as int + reg[Operation2Reg] as int) % 0x100;
      } else if instruction == SubInstruction {
        reg[selReg] := (reg[Operation1Reg] as int - reg[Operation2Reg] as int) % 0x100;
      } else if instruction == CompareInstruction {
        if reg[Operation1Reg] > reg[Operation2Reg] {
          reg[selReg] := 0x01;
        }
      } else if instruction == SkipInstruction {
        ByteMasks(reg[selReg]);
        if ByteOp(And, reg[selReg], 0x01) == 0x01 {
          pointer := Inc16(pointer);
        }
      } else if instruction == JumpInstruction {
        var jumpPoint := Wrap16(reg[JumpReg] as int * 0x100);
        jumpPoint := Wrap16(jumpPoint as int + reg[selReg]);
        JumpTargetWraps(reg[JumpReg], reg[selReg]);
        pointer := jumpPoint;
      } else {
        running := false;
      }
    }

    /** The run loop of the entry point: cycles while the last cycle kept
        running and the pointer is below the bound, for at most `fuel`
        cycles, and stops where the program would panic on a negative pointer. */
    method Run(fuel: nat) returns (outcome: Outcome)
      requires Valid()
      modifies this, ram, reg
      ensures Valid()
      ensures RunResult(outcome, View()) == Execute(old(View()), fuel)
    {
      var remaining: nat := fuel;
      var run := true;
      ghost var goal := Execute(View(), fuel);
      while run && 0 <= pointer < PointerBound && remaining > 0
        invariant Valid()
        invariant run ==> Execute(View(), remaining) == goal
        invariant !run ==> goal == RunResult(Halted, View())
        decreases remaining
      {
        run := Turn(remaining, goal);
        remaining := remaining - 1;
      }
      if run {
        outcome := Stop(remaining, goal);
      } else {
        outcome := Halted;
      }
    }

    /** One turn of the run loop: a cycle, with the rest of the run it leaves. */
    method Turn(remaining: nat, ghost goal: RunResult) returns (run: bool)
      requires Valid() && 0 <= pointer < PointerBound && remaining > 0
      requires Execute(View(), remaining) == goal
      modifies this, ram, reg
      ensures Valid()
      ensures run ==> Execute(View(), remaining - 1) == goal
      ensures !run ==> goal == RunResult(Halted, View())
    {
      ghost var before := View();
      run := DoCycle();
      ExecuteStep(before, remaining);
    }

    /** Why the run loop stopped, once its condition fails: the pointer at
        or past the bound, a negative pointer, or no cycles left. */
    method Stop(remaining: nat, ghost goal: RunResult) returns (outcome: Outcome)
      requires Valid() && !(0 <= pointer < PointerBound && remaining > 0)
      requires Execute(View(), remaining) == goal
      ensures RunResult(outcome, View()) == goal
    {
      ExecuteStops(View(), remaining);
      if pointer >= PointerBound {
        outcome := PointerLimit;
      } else if pointer < 0 {
        outcome := Panicked;
      } else {
        outcome := OutOfFuel;
      }
    }

    /** `getRegister` as written: its guard `index > len(reg)` lets index 16
        and every negative index through to the slice access, where the
        program panics, so those are excluded here. */
    function GetRegister(index: int): (v: Byte)
      reads this, reg
      requires Valid()
      requires index >= 0 && index != RegCount
      ensures index > RegCount ==> v == 0
      ensures index < RegCount ==> v == reg[index]
    {
      if !PassesRegisterGuard(index) then 0 else reg[index]
    }

    /** The register accessor as intended: the register's value for an index
        in [0, 15] and zero for every other index. */
    function ReadRegister(index: int): (v: Byte)
      reads this, reg
      requires Valid()
      ensures 0 <= index < RegCount ==> v == reg[index]
      ensures !(0 <= index < RegCount) ==> v == 0
    {
      if index < 0 || index >= reg.Length then 0 else reg[index]
    }
  }

  /** Loads a hex-encoded program: fails on malformed hex or on more than
      `RomSize` bytes, and otherwise returns the initial machine. */
  method New(hexRom: string) returns (r: Result<CPU, LoadError>)
    ensures r.Ok? <==> Boot(hexRom).Ok?
    ensures r.Err? ==> r.error == Boot(hexRom).error
    ensures r.Ok? ==> fresh(r.value) && fresh(r.value.rom) && fresh(r.value.ram) && fresh(r.value.reg)
    ensures r.Ok? ==> r.value.Valid() && r.value.View() == Boot(hexRom).value
  {
    var data := Hex.Decode(hexRom);
    if data.None? {
      return Err(InvalidHex);
    }
    if |data.value| > RomSize {
      return Err(RomTooLarge(|data.value|));
    }
    var cpu := new CPU(data.value);
    return Ok(cpu);
  }
}

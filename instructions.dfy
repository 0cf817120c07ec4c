/** What each instruction of the emulator does to the machine, stated on the
    `Step` function that `CPU.DoCycle` is proved to follow: which locations
    an instruction writes, with what value, and what stays as it was. */
module Instructions {
  import opened Base
  import opened Bits
  import opened Emulator

  /** `s` is about to decode an instruction byte with opcode `op`. */
  predicate Decodes(s: State, op: Byte) {
    s.WellFormed() && s.pointer >= 0 && !s.loadAsData && Opcode(Fetch(s)) == op
  }

  /** Every register other than `r` and `r'` is the same in both files. */
  predicate SameRegistersExcept(before: seq<Byte>, after: seq<Byte>, r: int, r': int)
    requires |before| == |after| == RegCount
  {
    forall i :: 0 <= i < RegCount && i != r && i != r' ==> after[i] == before[i]
  }

  /** Every cycle advances the pointer by one, with int16 wrap-around; only a
      skip and a jump move it further. */
  lemma CycleAdvancesPointer(s: State)
    requires s.WellFormed() && s.pointer >= 0
    requires s.loadAsData || (Opcode(Fetch(s)) != SkipInstruction && Opcode(Fetch(s)) != JumpInstruction)
    ensures Step(s).next.pointer == Inc16(s.pointer)
  {
  }

  /** A cycle halts exactly when it decodes opcode 0x0 or 0xF.  It has then
      still advanced the pointer and stored the low nibble in `selReg`, but
      left the registers and the memory alone. */
  lemma HaltingCycle(s: State)
    requires s.WellFormed() && s.pointer >= 0
    ensures !Step(s).running <==>
              !s.loadAsData && (Opcode(Fetch(s)) == NothingInstruction || Opcode(Fetch(s)) == 0x0F)
    ensures !Step(s).running ==>
              Step(s).next == s.(pointer := Inc16(s.pointer), selReg := Fetch(s) % 16)
  {
  }

  /** Only byte `0x1R`, decoded while no load is pending, arms a load: every
      other instruction leaves the flag clear, and a pending load clears it. */
  lemma FlagOnlyFromLoad(s: State)
    requires s.WellFormed() && s.pointer >= 0
    ensures Step(s).next.loadAsData <==> !s.loadAsData && Opcode(Fetch(s)) == LoadRegInstruction
  {
  }

  /** Every cycle leaves in `selReg` the low nibble of the byte it decoded,
      or clears it when the byte was the data of a pending load. */
  lemma SelRegAfterCycle(s: State)
    requires s.WellFormed() && s.pointer >= 0
    ensures Step(s).next.selReg == if s.loadAsData then 0 else Fetch(s) % 16
  {
  }

  /** The immediate load takes two cycles.  Byte `0x1R` only arms the load;
      the next byte, whatever it looks like, goes verbatim into register R,
      and the machine is back to decoding with `selReg` cleared. */
  lemma LoadImmediate(s: State)
    requires Decodes(s, LoadRegInstruction) && s.pointer < 0x7FFF
    ensures var first := Step(s);
            var r := Fetch(s) % 16;
            && first.running && first.next.loadAsData && first.next.selReg == r
            && first.next.reg == s.reg && first.next.ram == s.ram
            && first.next.pointer as int == s.pointer as int + 1
            && var second := Step(first.next);
               && second.running && !second.next.loadAsData && second.next.selReg == 0
               && second.next.reg == s.reg[r := s.rom[s.pointer as int + 1]]
               && second.next.ram == s.ram
               && second.next.pointer == Inc16(first.next.pointer)
  {
    var first := Step(s);
    assert first.next == s.(pointer := Inc16(s.pointer), selReg := Fetch(s) % 16, loadAsData := true);
    var second := Step(first.next);
    assert second.next == first.next.(pointer := Inc16(first.next.pointer), loadAsData := false, selReg := 0,
                                      reg := s.reg[Fetch(s) % 16 := s.rom[s.pointer as int + 1]]);
  }

  /** Load-RAM copies the memory cell addressed by register 2 into register R. */
  lemma LoadRam(s: State)
    requires Decodes(s, LoadRamInstruction)
    ensures var c := Step(s);
            var r := Fetch(s) % 16;
            && c.running && !c.next.loadAsData && c.next.selReg == r && c.next.ram == s.ram && c.next.pointer == Inc16(s.pointer)
            && c.next.reg[r] == s.ram[s.reg[RamAddressReg]]
            && SameRegistersExcept(s.reg, c.next.reg, r, r)
  {
  }

  /** Store-RAM writes register R into the memory cell addressed by register 2,
      which is always within the 256 cells, and changes nothing else. */
  lemma WriteRam(s: State)
    requires Decodes(s, WriteRamInstruction)
    ensures var c := Step(s);
            var r := Fetch(s) % 16;
            && c.running && !c.next.loadAsData && c.next.selReg == r && c.next.reg == s.reg && c.next.pointer == Inc16(s.pointer)
            && 0 <= s.reg[RamAddressReg] < RamSize
            && c.next.ram[s.reg[RamAddressReg]] == s.reg[r]
            && forall a :: 0 <= a < RamSize && a != s.reg[RamAddressReg] ==> c.next.ram[a] == s.ram[a]
  {
  }

  /** Move exchanges register 3 and register R; with R == 3 it changes no register. */
  lemma MoveSwaps(s: State)
    requires Decodes(s, MoveInstruction)
    ensures var c := Step(s);
            var r := Fetch(s) % 16;
            && c.running && !c.next.loadAsData && c.next.selReg == r && c.next.ram == s.ram && c.next.pointer == Inc16(s.pointer)
            && c.next.reg[MoveReg] == s.reg[r] && c.next.reg[r] == s.reg[MoveReg]
            && SameRegistersExcept(s.reg, c.next.reg, MoveReg, r)
            && (r == MoveReg ==> c.next.reg == s.reg)
  {
  }

  /** Executing the same move byte twice restores every register: the move is
      an exchange, not a copy. */
  lemma MoveTwiceRestores(s: State)
    requires Decodes(s, MoveInstruction) && s.pointer < 0x7FFF
    requires s.rom[s.pointer as int + 1] == Fetch(s)
    ensures var first := Step(s);
            first.next.pointer >= 0 && Step(first.next).next.reg == s.reg
  {
    var first := Step(s);
    var r := Fetch(s) % 16;
    assert Decodes(first.next, MoveInstruction);
    var second := Step(first.next);
    assert second.next.reg[MoveReg] == s.reg[MoveReg] && second.next.reg[r] == s.reg[r];
    assert second.next.reg == s.reg;
  }

  /** Shift-left, invert, add and subtract write register R and nothing
      else, each modulo 256. */
  lemma ArithmeticWraps(s: State, op: Byte)
    requires Decodes(s, op)
    requires op == BitshiftInstruction || op == InvertInstruction || op == AddInstruction || op == SubInstruction
    ensures var c := Step(s);
            var r := Fetch(s) % 16;
            var x, y := s.reg[Operation1Reg] as int, s.reg[Operation2Reg] as int;
            && c.running && !c.next.loadAsData && c.next.selReg == r && c.next.ram == s.ram && c.next.pointer == Inc16(s.pointer)
            && SameRegistersExcept(s.reg, c.next.reg, r, r)
            && (op == BitshiftInstruction ==> c.next.reg[r] == (2 * s.reg[r] as int) % 0x100)
            && (op == InvertInstruction ==> c.next.reg[r] == ByteOp(Xor, s.reg[r], 0xFF) == 0xFF - s.reg[r])
            && (op == AddInstruction ==> c.next.reg[r] == (x + y) % 0x100)
            && (op == SubInstruction ==> c.next.reg[r] == (x - y) % 0x100)
  {
    ByteMasks(s.reg[Fetch(s) % 16]);
  }

  /** Or, and and exclusive-or combine registers 0 and 1 bit by bit into
      register R and write nothing else. */
  lemma LogicIsBitwise(s: State, op: Byte, bitOp: BitOp)
    requires Decodes(s, op)
    requires (op, bitOp) == (OrInstruction, Or) || (op, bitOp) == (AndInstruction, And) || (op, bitOp) == (XorInstruction, Xor)
    ensures var c := Step(s);
            var r := Fetch(s) % 16;
            && c.running && !c.next.loadAsData && c.next.selReg == r && c.next.ram == s.ram && c.next.pointer == Inc16(s.pointer)
            && SameRegistersExcept(s.reg, c.next.reg, r, r)
            && forall k :: 0 <= k < 8 ==>
                 Bit(c.next.reg[r], k) == Combine(bitOp, Bit(s.reg[Operation1Reg], k), Bit(s.reg[Operation2Reg], k))
  {
  }

  /** The wrap-around cases: with 0xFF in register 0 and 0x02 in register 1,
      add yields 0x01 and subtract yields 0xFD. */
  lemma AddSubExamples(s: State)
    requires s.WellFormed() && s.pointer >= 0 && !s.loadAsData
    requires s.reg[Operation1Reg] == 0xFF && s.reg[Operation2Reg] == 0x02
    ensures Opcode(Fetch(s)) == AddInstruction ==> Step(s).next.reg[Fetch(s) % 16] == 0x01
    ensures Opcode(Fetch(s)) == SubInstruction ==> Step(s).next.reg[Fetch(s) % 16] == 0xFD
  {
  }

  /** Compare sets register R to 1 when register 0 is greater than register 1
      (unsigned) and otherwise leaves it as it was; it writes nothing else. */
  lemma CompareSetsOrKeeps(s: State)
    requires Decodes(s, CompareInstruction)
    ensures var c := Step(s);
            var r := Fetch(s) % 16;
            && c.running && !c.next.loadAsData && c.next.selReg == r && c.next.ram == s.ram && c.next.pointer == Inc16(s.pointer)
            && SameRegistersExcept(s.reg, c.next.reg, r, r)
            && c.next.reg[r] == (if s.reg[Operation1Reg] > s.reg[Operation2Reg] then 0x01 else s.reg[r])
  {
  }

  /** Skip advances the pointer by one more byte exactly when `reg[R] & 0x01`
      is set, that is when register R is odd, and changes no register, no
      memory cell and arms no load. */
  lemma SkipIfOdd(s: State)
    requires Decodes(s, SkipInstruction)
    ensures var c := Step(s);
            var r := Fetch(s) % 16;
            && c.running && !c.next.loadAsData && c.next.selReg == r && c.next.reg == s.reg && c.next.ram == s.ram
            && c.next.pointer == (if ByteOp(And, s.reg[r], 0x01) == 0x01 then Inc16(Inc16(s.pointer)) else Inc16(s.pointer))
            && (ByteOp(And, s.reg[r], 0x01) == 0x01 <==> s.reg[r] % 2 == 1)
  {
    ByteMasks(s.reg[Fetch(s) % 16]);
  }

  /** Jump loads the pointer with `reg[4] * 256 + reg[R]` read as a signed
      16-bit number, so the target is non-negative exactly when register 4 is
      below 0x80; registers and memory are untouched. */
  lemma JumpSetsPointer(s: State)
    requires Decodes(s, JumpInstruction)
    ensures var c := Step(s);
            var r := Fetch(s) % 16;
            var high, low := s.reg[JumpReg] as int, s.reg[r] as int;
            && c.running && !c.next.loadAsData && c.next.selReg == r && c.next.reg == s.reg && c.next.ram == s.ram
            && (c.next.pointer >= 0 <==> high < 0x80)
            && (high < 0x80 ==> c.next.pointer as int == high * 0x100 + low)
            && (high >= 0x80 ==> c.next.pointer as int == high * 0x100 + low - 0x1_0000)
  {
  }
}

/** The program that the entry point loads and runs: load 0xFF and 0xF0
    into registers 0 and 1, compare them into register 5, load two addresses,
    skip the next jump when register 5 is odd, move register 0 into the move
    register, jump over the alternative move, store the move register at
    memory address 0, and halt on the trailing 0x00. */
module Sample {
  import opened Base
  import opened Emulator

  const SampleHex: string := "10FF11F0C5160E170DD5E740E6413300"

  const SampleProgram: seq<Byte> :=
    [0x10, 0xFF, 0x11, 0xF0, 0xC5, 0x16, 0x0E, 0x17, 0x0D, 0xD5, 0xE7, 0x40, 0xE6, 0x41, 0x33, 0x00]

  /** The hex string of the entry point is well-formed Base 16. */
  lemma SampleIsHex()
    ensures Hex.IsHexString(SampleHex)
  {
    var s := SampleHex;
    assert |s| == 32;
    forall i | 0 <= i < 32 ensures Hex.IsHexDigit(s[i]) {
    }
  }

  /** Each byte of the sample program is spelled by its pair of digits. */
  lemma SamplePairs()
    ensures Hex.IsHexString(SampleHex) && |SampleHex| == 2 * |SampleProgram|
    ensures forall k :: 0 <= k < |SampleProgram| ==>
              SampleProgram[k] == Hex.PairValue(SampleHex[2 * k], SampleHex[2 * k + 1])
  {
    SampleIsHex();
    var s, p := SampleHex, SampleProgram;
    assert |s| == 32 && |p| == 16;
    forall k | 0 <= k < 8 ensures p[k] == Hex.PairValue(s[2 * k], s[2 * k + 1]) {
    }
    forall k | 8 <= k < 16 ensures p[k] == Hex.PairValue(s[2 * k], s[2 * k + 1]) {
    }
  }

  /** The hex string of the entry point loads as the sixteen bytes above. */
  lemma SampleLoads()
    ensures Boot(SampleHex) == Ok(Initial(SampleProgram))
  {
    SamplePairs();
    Hex.DecodesTo(SampleHex, SampleProgram);
  }

  /** The machine state after each of the fourteen cycles the sample runs,
      starting from `Initial(SampleProgram)`. */
  function Expected(i: nat): State
    requires i <= 14
  {
    var rom := Initial(SampleProgram).rom;
    var ram0, reg0 := Zeros(RamSize), Zeros(RegCount);
    var reg2 := reg0[0 := 0xFF];
    var reg4 := reg2[1 := 0xF0];
    var reg5 := reg4[5 := 0x01];
    var reg7 := reg5[6 := 0x0E];
    var reg9 := reg7[7 := 0x0D];
    var reg11 := reg9[3 := 0xFF][0 := 0x00];
    var ram13 := ram0[0 := 0xFF];
    match i
    case 0 => Initial(SampleProgram)
    case 1 => State(rom, ram0, reg0, 1, true, 0)
    case 2 => State(rom, ram0, reg2, 2, false, 0)
    case 3 => State(rom, ram0, reg2, 3, true, 1)
    case 4 => State(rom, ram0, reg4, 4, false, 0)
    case 5 => State(rom, ram0, reg5, 5, false, 5)
    case 6 => State(rom, ram0, reg5, 6, true, 6)
    case 7 => State(rom, ram0, reg7, 7, false, 0)
    case 8 => State(rom, ram0, reg7, 8, true, 7)
    case 9 => State(rom, ram0, reg9, 9, false, 0)
    case 10 => State(rom, ram0, reg9, 11, false, 5)
    case 11 => State(rom, ram0, reg11, 12, false, 0)
    case 12 => State(rom, ram0, reg11, 14, false, 6)
    case 13 => State(rom, ram13, reg11, 15, false, 3)
    case _ => State(rom, ram13, reg11, 16, false, 0)
  }

  /** The first sixteen bytes of the sample's memory image are the program. */
  lemma SampleRom()
    ensures forall i :: 0 <= i < 16 ==> Initial(SampleProgram).rom[i] == SampleProgram[i]
  {
    var rom := Initial(SampleProgram).rom;
    forall i | 0 <= i < 16 ensures rom[i] == SampleProgram[i] {
      assert rom[..16][i] == rom[i];
    }
  }

  /** Cycle 0 arms the immediate load into register 0. */
  lemma SampleCycle0()
    ensures Expected(0).WellFormed() && 0 <= Expected(0).pointer < PointerBound
    ensures Step(Expected(0)) == Cycle(true, Expected(1))
  {
    SampleRom();
  }

  /** Cycle 1 loads 0xFF into register 0. */
  lemma SampleCycle1()
    ensures Expected(1).WellFormed() && 0 <= Expected(1).pointer < PointerBound
    ensures Step(Expected(1)) == Cycle(true, Expected(2))
  {
    SampleRom();
  }

  /** Cycle 2 arms the immediate load into register 1. */
  lemma SampleCycle2()
    ensures Expected(2).WellFormed() && 0 <= Expected(2).pointer < PointerBound
    ensures Step(Expected(2)) == Cycle(true, Expected(3))
  {
    SampleRom();
  }

  /** Cycle 3 loads 0xF0 into register 1. */
  lemma SampleCycle3()
    ensures Expected(3).WellFormed() && 0 <= Expected(3).pointer < PointerBound
    ensures Step(Expected(3)) == Cycle(true, Expected(4))
  {
    SampleRom();
  }

  /** Cycle 4 compares registers 0 and 1 into register 5. */
  lemma SampleCycle4()
    ensures Expected(4).WellFormed() && 0 <= Expected(4).pointer < PointerBound
    ensures Step(Expected(4)) == Cycle(true, Expected(5))
  {
    SampleRom();
  }

  /** Cycle 5 arms the immediate load into register 6. */
  lemma SampleCycle5()
    ensures Expected(5).WellFormed() && 0 <= Expected(5).pointer < PointerBound
    ensures Step(Expected(5)) == Cycle(true, Expected(6))
  {
    SampleRom();
  }

  /** Cycle 6 loads the jump address 0x0E into register 6. */
  lemma SampleCycle6()
    ensures Expected(6).WellFormed() && 0 <= Expected(6).pointer < PointerBound
    ensures Step(Expected(6)) == Cycle(true, Expected(7))
  {
    SampleRom();
  }

  /** Cycle 7 arms the immediate load into register 7. */
  lemma SampleCycle7()
    ensures Expected(7).WellFormed() && 0 <= Expected(7).pointer < PointerBound
    ensures Step(Expected(7)) == Cycle(true, Expected(8))
  {
    SampleRom();
  }

  /** Cycle 8 loads the skip address 0x0D into register 7. */
  lemma SampleCycle8()
    ensures Expected(8).WellFormed() && 0 <= Expected(8).pointer < PointerBound
    ensures Step(Expected(8)) == Cycle(true, Expected(9))
  {
    SampleRom();
  }

  /** Cycle 9 skips the byte at index 10 since register 5 is odd. */
  lemma SampleCycle9()
    ensures Expected(9).WellFormed() && 0 <= Expected(9).pointer < PointerBound
    ensures Step(Expected(9)) == Cycle(true, Expected(10))
  {
    SampleRom();
  }

  /** Cycle 10 moves register 0 into the move register. */
  lemma SampleCycle10()
    ensures Expected(10).WellFormed() && 0 <= Expected(10).pointer < PointerBound
    ensures Step(Expected(10)) == Cycle(true, Expected(11))
  {
    SampleRom();
  }

  /** Cycle 11 jumps to index 14 through registers 4 and 6. */
  lemma SampleCycle11()
    ensures Expected(11).WellFormed() && 0 <= Expected(11).pointer < PointerBound
    ensures Step(Expected(11)) == Cycle(true, Expected(12))
  {
    SampleRom();
  }

  /** Cycle 12 stores the move register at memory address 0. */
  lemma SampleCycle12()
    ensures Expected(12).WellFormed() && 0 <= Expected(12).pointer < PointerBound
    ensures Step(Expected(12)) == Cycle(true, Expected(13))
  {
    SampleRom();
    var s := Expected(12);
    assert Fetch(s) == 0x33 && Opcode(0x33) == WriteRamInstruction && Operand(0x33) == 3;
    assert s.reg[RamAddressReg] == 0 && s.reg[3] == 0xFF;
  }

  /** Cycle 13 halts on the trailing 0x00. */
  lemma SampleCycle13()
    ensures Expected(13).WellFormed() && 0 <= Expected(13).pointer < PointerBound
    ensures Step(Expected(13)) == Cycle(false, Expected(14))
  {
    SampleRom();
  }

  /** Running the sample from its initial state halts on the byte at index 15,
      with register 5 set by the comparison (0xFF > 0xF0), 0xFF moved into
      register 3 and stored at memory address 0. */
  lemma SampleTrace(fuel: nat)
    requires fuel >= 14
    ensures var r := Execute(Initial(SampleProgram), fuel);
            && r.outcome == Halted && r.final.pointer == 16
            && r.final.reg[5] == 0x01 && r.final.reg[MoveReg] == 0xFF && r.final.ram[0] == 0xFF
  {
    ExpectedRun(0, fuel);
    var e := Expected(14);
    assert Execute(Expected(0), fuel) == RunResult(Halted, e);
    assert e.pointer == 16 && e.reg[5] == 0x01 && e.reg[MoveReg] == 0xFF && e.ram[0] == 0xFF;
  }

  /** Cycle `i` of the sample goes from `Expected(i)` to `Expected(i + 1)`,
      and only the last one halts. */
  lemma SampleCycle(i: nat)
    requires i < 14
    ensures Expected(i).WellFormed() && 0 <= Expected(i).pointer < PointerBound
    ensures Step(Expected(i)) == Cycle(i < 13, Expected(i + 1))
  {
    if i == 0 { SampleCycle0(); }
    else if i == 1 { SampleCycle1(); }
    else if i == 2 { SampleCycle2(); }
    else if i == 3 { SampleCycle3(); }
    else if i == 4 { SampleCycle4(); }
    else if i == 5 { SampleCycle5(); }
    else if i == 6 { SampleCycle6(); }
    else if i == 7 { SampleCycle7(); }
    else if i == 8 { SampleCycle8(); }
    else if i == 9 { SampleCycle9(); }
    else if i == 10 { SampleCycle10(); }
    else if i == 11 { SampleCycle11(); }
    else if i == 12 { SampleCycle12(); }
    else { SampleCycle13(); }
  }

  /** From cycle `i` on, the sample runs to the halt within `14 - i` cycles. */
  lemma {:induction false} ExpectedRun(i: nat, fuel: nat)
    requires i < 14 && fuel >= 14 - i
    ensures Execute(Expected(i), fuel) == RunResult(Halted, Expected(14))
    decreases 14 - i
  {
    var s, t := Expected(i), Expected(i + 1);
    SampleCycle(i);
    ExecuteStep(s, fuel);
    if i < 13 {
      ExpectedRun(i + 1, fuel - 1);
      assert Execute(s, fuel) == Execute(t, fuel - 1);
    } else {
      assert Execute(s, fuel) == RunResult(Halted, t);
    }
  }

  /** The entry point: load the sample, run it with the cycle and pointer
      bounds of the run loop, and read the move register. */
  method RunSample() returns (outcome: Outcome, moveRegValue: Byte)
    ensures outcome == Halted && moveRegValue == 0xFF
  {
    SampleLoads();
    var loaded := New(SampleHex);
    var cpu := loaded.value;
    SampleTrace(PointerBound as nat);
    outcome := cpu.Run(PointerBound as nat);
    moveRegValue := cpu.GetRegister(MoveReg);
  }
}

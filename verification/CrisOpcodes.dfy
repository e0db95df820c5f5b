/** Best-match opcode search of the CRIS disassembler. */
module CrisOpcodes {
  import opened Sectors

  type Insn = bv16

  const BDAP_QUICK_OPCODE: Insn := 0x0100
  const DIP_OPCODE: Insn := 0x0970
  const NO_PREFIX: Insn := 0

  datatype Version =
    All | Warning | V0_3 | V3p | V8 | V8p | SimV0_10 | V0_10 | V3_10 | V8_10 | V10 | V10p | V32p

  datatype Family = FamilyV0V10 | FamilyCommon | FamilyV32

  /** Every special register holds one, two or four bytes. */
  type RegSize = n: nat | n in {1, 2, 4} witness 1

  datatype SpecReg = SpecReg(name: string, number: Insn, size: RegSize, version: Version, ambiguous: bool)

  datatype Opcode = Opcode(name: string, matchBits: Insn, loseBits: Insn, args: string, version: Version)

  // ---------------------------------------------------------------- special registers

  function SpecRegs(): seq<SpecReg> {
    Regs0() + Regs4() + Regs8() + Regs12()
  }

  /** Registers 0 to 3. */
  function Regs0(): seq<SpecReg> {
    [
      SpecReg("bz", 0, 1, V32p, false),
      SpecReg("p0", 0, 1, All, false),
      SpecReg("vr", 1, 1, All, false),
      SpecReg("p1", 1, 1, All, false),
      SpecReg("pid", 2, 1, V32p, false),
      SpecReg("p2", 2, 1, V32p, false),
      SpecReg("p2", 2, 1, Warning, false),
      SpecReg("srs", 3, 1, V32p, false),
      SpecReg("p3", 3, 1, V32p, false),
      SpecReg("p3", 3, 1, Warning, false)
    ]
  }

  /** Registers 4 to 7. */
  function Regs4(): seq<SpecReg> {
    [
      SpecReg("wz", 4, 2, V32p, false),
      SpecReg("p4", 4, 2, All, false),
      SpecReg("ccr", 5, 2, V0_10, false),
      SpecReg("exs", 5, 4, V32p, false),
      SpecReg("p5", 5, 2, V0_10, false),
      SpecReg("p5", 5, 4, V32p, false),
      SpecReg("dcr0", 6, 2, V0_3, false),
      SpecReg("eda", 6, 4, V32p, false),
      SpecReg("p6", 6, 2, V0_3, false),
      SpecReg("p6", 6, 4, V32p, false),
      SpecReg("dcr1/mof", 7, 4, V10p, true),
      SpecReg("dcr1/mof", 7, 2, V0_3, true),
      SpecReg("mof", 7, 4, V10p, false),
      SpecReg("dcr1", 7, 2, V0_3, false),
      SpecReg("p7", 7, 4, V10p, false),
      SpecReg("p7", 7, 2, V0_3, false)
    ]
  }

  /** Registers 8 to 11. */
  function Regs8(): seq<SpecReg> {
    [
      SpecReg("dz", 8, 4, V32p, false),
      SpecReg("p8", 8, 4, All, false),
      SpecReg("ibr", 9, 4, V0_10, false),
      SpecReg("ebp", 9, 4, V32p, false),
      SpecReg("p9", 9, 4, All, false),
      SpecReg("irp", 10, 4, V0_10, false),
      SpecReg("erp", 10, 4, V32p, false),
      SpecReg("p10", 10, 4, All, false),
      SpecReg("srp", 11, 4, All, false),
      SpecReg("p11", 11, 4, All, false)
    ]
  }

  /** Registers 12 to 15. */
  function Regs12(): seq<SpecReg> {
    [
      SpecReg("bar/dtp0", 12, 4, Warning, true),
      SpecReg("nrp", 12, 4, V32p, false),
      SpecReg("bar", 12, 4, V8_10, false),
      SpecReg("dtp0", 12, 4, V0_3, false),
      SpecReg("p12", 12, 4, All, false),
      SpecReg("dccr/dtp1", 13, 4, Warning, true),
      SpecReg("ccs", 13, 4, V32p, false),
      SpecReg("dccr", 13, 4, V8_10, false),
      SpecReg("dtp1", 13, 4, V0_3, false),
      SpecReg("p13", 13, 4, All, false),
      SpecReg("brp", 14, 4, V3_10, false),
      SpecReg("usp", 14, 4, V32p, false),
      SpecReg("p14", 14, 4, V3p, false),
      SpecReg("usp", 15, 4, V10, false),
      SpecReg("spc", 15, 4, V32p, false),
      SpecReg("p15", 15, 4, V10p, false)
    ]
  }

  /** The entry names register `sreg` in this family. */
  predicate Names(reg: SpecReg, sreg: Insn, family: Family) {
    && reg.number == sreg
    && if family == FamilyV32 then reg.version in {Warning, All, V3p, V8p, V10p, V32p} && !reg.ambiguous
       else reg.version != V32p
  }

  /** The first entry that names the register. */
  function FirstReg(regs: seq<SpecReg>, sreg: Insn, family: Family): Option<SpecReg> {
    if regs == [] then None
    else if Names(regs[0], sreg, family) then Some(regs[0])
    else FirstReg(regs[1..], sreg, family)
  }

  function SpecRegInfo(sreg: Insn, family: Family): Option<SpecReg> {
    FirstReg(SpecRegs(), sreg, family)
  }

  lemma {:induction false} FirstRegIs(regs: seq<SpecReg>, n: nat, sreg: Insn, family: Family)
    requires n < |regs| && Names(regs[n], sreg, family) && forall i :: 0 <= i < n ==> !Names(regs[i], sreg, family)
    ensures FirstReg(regs, sreg, family) == Some(regs[n])
  {
    if n > 0 {
      assert regs[1..][n - 1] == regs[n];
      FirstRegIs(regs[1..], n - 1, sreg, family);
    }
  }

  lemma {:induction false} NoReg(regs: seq<SpecReg>, sreg: Insn, family: Family)
    requires forall i :: 0 <= i < |regs| ==> regs[i].number != sreg
    ensures FirstReg(regs, sreg, family) == None
  {
    if regs != [] {
      NoReg(regs[1..], sreg, family);
    }
  }

  lemma {:induction false} FirstRegConcat(a: seq<SpecReg>, b: seq<SpecReg>, sreg: Insn, family: Family)
    ensures FirstReg(a + b, sreg, family) ==
            if FirstReg(a, sreg, family).Some? then FirstReg(a, sreg, family) else FirstReg(b, sreg, family)
  {
    hide Names;
    if a == [] {
      assert a + b == b;
    } else {
      assert (a + b)[1..] == a[1..] + b;
      FirstRegConcat(a[1..], b, sreg, family);
    }
  }

  /** Each quarter of the table has the entries of four registers. */
  lemma Quarters(sreg: Insn, family: Family)
    ensures sreg in {0, 1, 2, 3} ==> SpecRegInfo(sreg, family) == FirstReg(Regs0(), sreg, family)
    ensures sreg in {4, 5, 6, 7} ==> SpecRegInfo(sreg, family) == FirstReg(Regs4(), sreg, family)
    ensures sreg in {8, 9, 10, 11} ==> SpecRegInfo(sreg, family) == FirstReg(Regs8(), sreg, family)
    ensures sreg in {12, 13, 14, 15} ==> SpecRegInfo(sreg, family) == FirstReg(Regs12(), sreg, family)
  {
    hide FirstReg, Regs0, Regs4, Regs8, Regs12;
    if sreg !in {0, 1, 2, 3} {
      NotInRegs0(sreg, family);
    }
    if sreg !in {4, 5, 6, 7} {
      NotInRegs4(sreg, family);
    }
    if sreg !in {8, 9, 10, 11} {
      NotInRegs8(sreg, family);
    }
    if sreg !in {12, 13, 14, 15} {
      NotInRegs12(sreg, family);
    }
    FirstRegConcat(Regs0() + Regs4() + Regs8(), Regs12(), sreg, family);
    FirstRegConcat(Regs0() + Regs4(), Regs8(), sreg, family);
    FirstRegConcat(Regs0(), Regs4(), sreg, family);
  }

  lemma NotInRegs0(sreg: Insn, family: Family)
    requires sreg !in {0, 1, 2, 3}
    ensures FirstReg(Regs0(), sreg, family) == None
  {
    hide FirstReg;
    NoReg(Regs0(), sreg, family);
  }

  lemma NotInRegs4(sreg: Insn, family: Family)
    requires sreg !in {4, 5, 6, 7}
    ensures FirstReg(Regs4(), sreg, family) == None
  {
    hide FirstReg;
    NoReg(Regs4(), sreg, family);
  }

  lemma NotInRegs8(sreg: Insn, family: Family)
    requires sreg !in {8, 9, 10, 11}
    ensures FirstReg(Regs8(), sreg, family) == None
  {
    hide FirstReg;
    NoReg(Regs8(), sreg, family);
  }

  lemma NotInRegs12(sreg: Insn, family: Family)
    requires sreg !in {12, 13, 14, 15}
    ensures FirstReg(Regs12(), sreg, family) == None
  {
    hide FirstReg;
    NoReg(Regs12(), sreg, family);
  }

  /** The entry that counts for register `sreg` has this name and size. */
  predicate RegIs(sreg: Insn, family: Family, name: string, size: nat) {
    var r := SpecRegInfo(sreg, family);
    r.Some? && r.value.name == name && r.value.size == size
  }

  lemma NewRegs0()
    ensures FirstReg(Regs0(), 0, FamilyV32) == Some(Regs0()[0])
    ensures FirstReg(Regs0(), 1, FamilyV32) == Some(Regs0()[2])
    ensures FirstReg(Regs0(), 2, FamilyV32) == Some(Regs0()[4])
    ensures FirstReg(Regs0(), 3, FamilyV32) == Some(Regs0()[7])
  {
    hide FirstReg;
    var regs := Regs0();
    FirstRegIs(regs, 0, 0, FamilyV32);
    FirstRegIs(regs, 2, 1, FamilyV32);
    FirstRegIs(regs, 4, 2, FamilyV32);
    FirstRegIs(regs, 7, 3, FamilyV32);
  }

  lemma NewRegs4()
    ensures FirstReg(Regs4(), 4, FamilyV32) == Some(Regs4()[0])
    ensures FirstReg(Regs4(), 5, FamilyV32) == Some(Regs4()[3])
    ensures FirstReg(Regs4(), 6, FamilyV32) == Some(Regs4()[7])
    ensures FirstReg(Regs4(), 7, FamilyV32) == Some(Regs4()[12])
  {
    hide FirstReg;
    var regs := Regs4();
    FirstRegIs(regs, 0, 4, FamilyV32);
    FirstRegIs(regs, 3, 5, FamilyV32);
    FirstRegIs(regs, 7, 6, FamilyV32);
    FirstRegIs(regs, 12, 7, FamilyV32);
  }

  lemma NewRegs8()
    ensures FirstReg(Regs8(), 8, FamilyV32) == Some(Regs8()[0])
    ensures FirstReg(Regs8(), 9, FamilyV32) == Some(Regs8()[3])
    ensures FirstReg(Regs8(), 10, FamilyV32) == Some(Regs8()[6])
    ensures FirstReg(Regs8(), 11, FamilyV32) == Some(Regs8()[8])
  {
    hide FirstReg;
    var regs := Regs8();
    FirstRegIs(regs, 0, 8, FamilyV32);
    FirstRegIs(regs, 3, 9, FamilyV32);
    FirstRegIs(regs, 6, 10, FamilyV32);
    FirstRegIs(regs, 8, 11, FamilyV32);
  }

  lemma NewRegs12()
    ensures FirstReg(Regs12(), 12, FamilyV32) == Some(Regs12()[1])
    ensures FirstReg(Regs12(), 13, FamilyV32) == Some(Regs12()[6])
    ensures FirstReg(Regs12(), 14, FamilyV32) == Some(Regs12()[11])
    ensures FirstReg(Regs12(), 15, FamilyV32) == Some(Regs12()[14])
  {
    hide FirstReg;
    var regs := Regs12();
    FirstRegIs(regs, 1, 12, FamilyV32);
    FirstRegIs(regs, 6, 13, FamilyV32);
    FirstRegIs(regs, 11, 14, FamilyV32);
    FirstRegIs(regs, 14, 15, FamilyV32);
  }

  lemma OldRegs0()
    ensures FirstReg(Regs0(), 0, FamilyV0V10) == Some(Regs0()[1])
    ensures FirstReg(Regs0(), 1, FamilyV0V10) == Some(Regs0()[2])
    ensures FirstReg(Regs0(), 2, FamilyV0V10) == Some(Regs0()[6])
    ensures FirstReg(Regs0(), 3, FamilyV0V10) == Some(Regs0()[9])
  {
    hide FirstReg;
    var regs := Regs0();
    FirstRegIs(regs, 1, 0, FamilyV0V10);
    FirstRegIs(regs, 2, 1, FamilyV0V10);
    FirstRegIs(regs, 6, 2, FamilyV0V10);
    FirstRegIs(regs, 9, 3, FamilyV0V10);
  }

  lemma OldRegs4()
    ensures FirstReg(Regs4(), 4, FamilyV0V10) == Some(Regs4()[1])
    ensures FirstReg(Regs4(), 5, FamilyV0V10) == Some(Regs4()[2])
    ensures FirstReg(Regs4(), 6, FamilyV0V10) == Some(Regs4()[6])
    ensures FirstReg(Regs4(), 7, FamilyV0V10) == Some(Regs4()[10])
  {
    hide FirstReg, Names;
    OldRegs45();
    OldRegs67();
  }

  lemma OldRegs45()
    ensures FirstReg(Regs4(), 4, FamilyV0V10) == Some(Regs4()[1])
    ensures FirstReg(Regs4(), 5, FamilyV0V10) == Some(Regs4()[2])
  {
    hide FirstReg;
    var regs := Regs4();
    FirstRegIs(regs, 1, 4, FamilyV0V10);
    FirstRegIs(regs, 2, 5, FamilyV0V10);
  }

  lemma OldRegs67()
    ensures FirstReg(Regs4(), 6, FamilyV0V10) == Some(Regs4()[6])
    ensures FirstReg(Regs4(), 7, FamilyV0V10) == Some(Regs4()[10])
  {
    hide FirstReg;
    var regs := Regs4();
    FirstRegIs(regs, 6, 6, FamilyV0V10);
    FirstRegIs(regs, 10, 7, FamilyV0V10);
  }

  lemma OldRegs8()
    ensures FirstReg(Regs8(), 8, FamilyV0V10) == Some(Regs8()[1])
    ensures FirstReg(Regs8(), 9, FamilyV0V10) == Some(Regs8()[2])
    ensures FirstReg(Regs8(), 10, FamilyV0V10) == Some(Regs8()[5])
    ensures FirstReg(Regs8(), 11, FamilyV0V10) == Some(Regs8()[8])
  {
    hide FirstReg;
    var regs := Regs8();
    FirstRegIs(regs, 1, 8, FamilyV0V10);
    FirstRegIs(regs, 2, 9, FamilyV0V10);
    FirstRegIs(regs, 5, 10, FamilyV0V10);
    FirstRegIs(regs, 8, 11, FamilyV0V10);
  }

  lemma OldRegs12()
    ensures FirstReg(Regs12(), 12, FamilyV0V10) == Some(Regs12()[0])
    ensures FirstReg(Regs12(), 13, FamilyV0V10) == Some(Regs12()[5])
    ensures FirstReg(Regs12(), 14, FamilyV0V10) == Some(Regs12()[10])
    ensures FirstReg(Regs12(), 15, FamilyV0V10) == Some(Regs12()[13])
  {
    hide FirstReg;
    var regs := Regs12();
    FirstRegIs(regs, 0, 12, FamilyV0V10);
    FirstRegIs(regs, 5, 13, FamilyV0V10);
    FirstRegIs(regs, 10, 14, FamilyV0V10);
    FirstRegIs(regs, 13, 15, FamilyV0V10);
  }

  lemma LowRegistersV32()
    ensures RegIs(0, FamilyV32, "bz", 1)
    ensures RegIs(1, FamilyV32, "vr", 1)
    ensures RegIs(2, FamilyV32, "pid", 1)
    ensures RegIs(3, FamilyV32, "srs", 1)
  {
    hide FirstReg;
    NewRegs0();
    Quarters(0, FamilyV32);
    Quarters(1, FamilyV32);
    Quarters(2, FamilyV32);
    Quarters(3, FamilyV32);
  }

  lemma NextRegistersV32()
    ensures RegIs(4, FamilyV32, "wz", 2)
    ensures RegIs(5, FamilyV32, "exs", 4)
    ensures RegIs(6, FamilyV32, "eda", 4)
    ensures RegIs(7, FamilyV32, "mof", 4)
  {
    hide FirstReg;
    NewRegs4();
    Quarters(4, FamilyV32);
    Quarters(5, FamilyV32);
    Quarters(6, FamilyV32);
    Quarters(7, FamilyV32);
  }

  lemma HighRegistersV32()
    ensures RegIs(8, FamilyV32, "dz", 4)
    ensures RegIs(9, FamilyV32, "ebp", 4)
    ensures RegIs(10, FamilyV32, "erp", 4)
    ensures RegIs(11, FamilyV32, "srp", 4)
  {
    hide FirstReg;
    NewRegs8();
    Quarters(8, FamilyV32);
    Quarters(9, FamilyV32);
    Quarters(10, FamilyV32);
    Quarters(11, FamilyV32);
  }

  lemma TopRegistersV32()
    ensures RegIs(12, FamilyV32, "nrp", 4)
    ensures RegIs(13, FamilyV32, "ccs", 4)
    ensures RegIs(14, FamilyV32, "usp", 4)
    ensures RegIs(15, FamilyV32, "spc", 4)
  {
    hide FirstReg;
    NewRegs12();
    Quarters(12, FamilyV32);
    Quarters(13, FamilyV32);
    Quarters(14, FamilyV32);
    Quarters(15, FamilyV32);
  }

  /** The special registers of CRISv32, with their sizes in bytes. */
  lemma RegistersV32()
    ensures RegIs(0, FamilyV32, "bz", 1)
    ensures RegIs(1, FamilyV32, "vr", 1)
    ensures RegIs(2, FamilyV32, "pid", 1)
    ensures RegIs(3, FamilyV32, "srs", 1)
    ensures RegIs(4, FamilyV32, "wz", 2)
    ensures RegIs(5, FamilyV32, "exs", 4)
    ensures RegIs(6, FamilyV32, "eda", 4)
    ensures RegIs(7, FamilyV32, "mof", 4)
    ensures RegIs(8, FamilyV32, "dz", 4)
    ensures RegIs(9, FamilyV32, "ebp", 4)
    ensures RegIs(10, FamilyV32, "erp", 4)
    ensures RegIs(11, FamilyV32, "srp", 4)
    ensures RegIs(12, FamilyV32, "nrp", 4)
    ensures RegIs(13, FamilyV32, "ccs", 4)
    ensures RegIs(14, FamilyV32, "usp", 4)
    ensures RegIs(15, FamilyV32, "spc", 4)
  {
    hide RegIs;
    LowRegistersV32();
    NextRegistersV32();
    HighRegistersV32();
    TopRegistersV32();
  }

  lemma LowRegistersV0V10()
    ensures RegIs(0, FamilyV0V10, "p0", 1)
    ensures RegIs(1, FamilyV0V10, "vr", 1)
    ensures RegIs(2, FamilyV0V10, "p2", 1)
    ensures RegIs(3, FamilyV0V10, "p3", 1)
  {
    hide FirstReg;
    OldRegs0();
    Quarters(0, FamilyV0V10);
    Quarters(1, FamilyV0V10);
    Quarters(2, FamilyV0V10);
    Quarters(3, FamilyV0V10);
  }

  lemma NextRegistersV0V10()
    ensures RegIs(4, FamilyV0V10, "p4", 2)
    ensures RegIs(5, FamilyV0V10, "ccr", 2)
    ensures RegIs(6, FamilyV0V10, "dcr0", 2)
    ensures RegIs(7, FamilyV0V10, "dcr1/mof", 4)
  {
    hide FirstReg;
    OldRegs4();
    Quarters(4, FamilyV0V10);
    Quarters(5, FamilyV0V10);
    Quarters(6, FamilyV0V10);
    Quarters(7, FamilyV0V10);
  }

  lemma HighRegistersV0V10()
    ensures RegIs(8, FamilyV0V10, "p8", 4)
    ensures RegIs(9, FamilyV0V10, "ibr", 4)
    ensures RegIs(10, FamilyV0V10, "irp", 4)
    ensures RegIs(11, FamilyV0V10, "srp", 4)
  {
    hide FirstReg;
    OldRegs8();
    Quarters(8, FamilyV0V10);
    Quarters(9, FamilyV0V10);
    Quarters(10, FamilyV0V10);
    Quarters(11, FamilyV0V10);
  }

  lemma TopRegistersV0V10()
    ensures RegIs(12, FamilyV0V10, "bar/dtp0", 4)
    ensures RegIs(13, FamilyV0V10, "dccr/dtp1", 4)
    ensures RegIs(14, FamilyV0V10, "brp", 4)
    ensures RegIs(15, FamilyV0V10, "usp", 4)
  {
    hide FirstReg;
    OldRegs12();
    Quarters(12, FamilyV0V10);
    Quarters(13, FamilyV0V10);
    Quarters(14, FamilyV0V10);
    Quarters(15, FamilyV0V10);
  }

  /** The special registers of the earlier versions. Where their names differ the first entry counts. */
  lemma RegistersV0V10()
    ensures RegIs(0, FamilyV0V10, "p0", 1)
    ensures RegIs(1, FamilyV0V10, "vr", 1)
    ensures RegIs(2, FamilyV0V10, "p2", 1)
    ensures RegIs(3, FamilyV0V10, "p3", 1)
    ensures RegIs(4, FamilyV0V10, "p4", 2)
    ensures RegIs(5, FamilyV0V10, "ccr", 2)
    ensures RegIs(6, FamilyV0V10, "dcr0", 2)
    ensures RegIs(7, FamilyV0V10, "dcr1/mof", 4)
    ensures RegIs(8, FamilyV0V10, "p8", 4)
    ensures RegIs(9, FamilyV0V10, "ibr", 4)
    ensures RegIs(10, FamilyV0V10, "irp", 4)
    ensures RegIs(11, FamilyV0V10, "srp", 4)
    ensures RegIs(12, FamilyV0V10, "bar/dtp0", 4)
    ensures RegIs(13, FamilyV0V10, "dccr/dtp1", 4)
    ensures RegIs(14, FamilyV0V10, "brp", 4)
    ensures RegIs(15, FamilyV0V10, "usp", 4)
  {
    hide RegIs;
    LowRegistersV0V10();
    NextRegistersV0V10();
    HighRegistersV0V10();
    TopRegistersV0V10();
  }

  /** Disassembly for versions 0 to 10 and for what they have in common with CRISv32 takes the same entries. */
  lemma {:induction false} SameBeforeV32(regs: seq<SpecReg>, sreg: Insn)
    ensures FirstReg(regs, sreg, FamilyCommon) == FirstReg(regs, sreg, FamilyV0V10)
  {
    if regs != [] {
      SameBeforeV32(regs[1..], sreg);
    }
  }

  method FindSpecReg(sreg: Insn, family: Family) returns (r: Option<SpecReg>)
    ensures r == SpecRegInfo(sreg, family)
  {
    var regs := SpecRegs();
    hide SpecRegs;
    for i := 0 to |regs|
      invariant FirstReg(regs, sreg, family) == FirstReg(regs[i..], sreg, family)
    {
      assert regs[i..][0] == regs[i] && regs[i..][1..] == regs[i + 1..];
      if Names(regs[i], sreg, family) {
        return Some(regs[i]);
      }
    }
    r := None;
  }

  // ---------------------------------------------------------------- counting bits

  function Half(v: bv32): bv32 {
    v >> 1
  }

  function Twice(v: bv32): bv32 {
    v << 1
  }

  predicate Odd(v: bv32) {
    v & 1 == 1
  }

  function WithoutLowest(v: bv32): bv32 {
    v & (v - 1)
  }

  function Popcount(v: bv32): nat
    decreases v
  {
    if v == 0 then 0 else (if Odd(v) then 1 else 0) + Popcount(Half(v))
  }

  lemma HalfOfZero()
    ensures Half(0) == 0 && !Odd(0)
  {
  }

  lemma ClearOdd(v: bv32)
    requires Odd(v)
    ensures !Odd(WithoutLowest(v)) && Half(WithoutLowest(v)) == Half(v)
  {
  }

  lemma TwiceMinusOne(w: bv32)
    ensures (w << 1) - 1 == ((w - 1) << 1) | 1
  {
  }

  lemma AndOfTwice(w: bv32, u: bv32)
    ensures (w << 1) & ((u << 1) | 1) == (w & u) << 1
  {
  }

  lemma ClearTwice(w: bv32)
    ensures WithoutLowest(Twice(w)) == Twice(WithoutLowest(w))
  {
    TwiceMinusOne(w);
    AndOfTwice(w, w - 1);
  }

  lemma TwiceHalf(v: bv32)
    requires !Odd(v)
    ensures v == Twice(Half(v))
  {
  }

  lemma HalfTwice(v: bv32)
    ensures !Odd(Twice(WithoutLowest(Half(v)))) && Half(Twice(WithoutLowest(Half(v)))) == WithoutLowest(Half(v))
  {
  }

  lemma ClearEven(v: bv32)
    requires !Odd(v)
    ensures !Odd(WithoutLowest(v)) && Half(WithoutLowest(v)) == WithoutLowest(Half(v))
  {
    hide Half, Odd, Twice, WithoutLowest;
    TwiceHalf(v);
    ClearTwice(Half(v));
    HalfTwice(v);
  }

  lemma HalfIsLess(v: bv32)
    requires v != 0
    ensures Half(v) < v && (!Odd(v) ==> Half(v) != 0)
  {
  }

  /** Clearing the lowest set bit takes one off the count. */
  lemma {:induction false} ClearLowestBit(v: bv32)
    requires v != 0
    ensures Popcount(WithoutLowest(v)) == Popcount(v) - 1
    decreases v
  {
    hide Half, Odd, WithoutLowest;
    HalfIsLess(v);
    HalfOfZero();
    if Odd(v) {
      ClearOdd(v);
    } else {
      ClearEven(v);
      ClearLowestBit(Half(v));
    }
  }

  method NumberOfBits(v: bv32) returns (bits: nat)
    ensures bits == Popcount(v)
  {
    bits := 0;
    var left := v;
    while left != 0
      invariant bits + Popcount(left) == Popcount(v)
      decreases Popcount(left)
    {
      hide Half, Odd, WithoutLowest;
      ClearLowestBit(left);
      bits := bits + 1;
      left := WithoutLowest(left);
    }
  }

  // ---------------------------------------------------------------- constraints

  type Offset = x: int | -128 <= x < 128 witness 0

  /** What a constraint may ask about the prefix: which table entry it is, and its signed low byte. */
  datatype View = NoPrefix | Prefix(matchBits: Insn, offset: Offset)

  function SignedByte(prefix: Insn): Offset {
    var b := (prefix & 255) as bv8;
    if b > 127 then b as int - 256 else b as int
  }

  function Unsigned(x: int): int {
    if x < 0 then x + 0x1_0000_0000 else x
  }

  function Field12(insn: Insn): Insn {
    (insn >> 12) & 15
  }

  predicate PostIncrement(insn: Insn) {
    insn & 0x400 != 0
  }

  predicate PushSizeOk(next: char, insn: Insn, offset: Offset, family: Family) {
    if next == 'P' then
      var reg := SpecRegInfo(Field12(insn), family);
      reg.Some? && reg.value.size == Unsigned(0 - offset as int)
    else
      next == 'R' && insn & 0x30 == 0x20 && offset == -4
  }

  /** What one letter of the argument string does. */
  datatype Effect = Refuse | Pass | AcceptPrefix | SetScore(n: nat) | AddScore(m: nat)

  function Letter(c: char, next: char, insn: Insn, v: View, family: Family): Effect {
    if c == '!' then (if v.Prefix? || family != FamilyV0V10 then Refuse else Pass)
    else if c == 'U' then Refuse
    else if c == 'M' then (if Field12(insn) !in {0, 4, 8} then Refuse else Pass)
    else if c == 'm' then (if insn & 0x30 == 0x30 then Refuse else Pass)
    else if c == 'S' then (if v.Prefix? && !PostIncrement(insn) then AcceptPrefix else Refuse)
    else if c == 's' || c == 'y' || c == 'Y' then
      if v.NoPrefix? then Pass
      else if PostIncrement(insn) && v.matchBits == DIP_OPCODE then Refuse
      else AcceptPrefix
    else if c == 'B' then
      if v.Prefix? && v.matchBits == BDAP_QUICK_OPCODE && PushSizeOk(next, insn, v.offset, family) then AcceptPrefix
      else Refuse
    else if c == 'D' then (if Field12(insn) == insn & 15 then SetScore(5) else Refuse)
    else if c == 'P' then (if SpecRegInfo(Field12(insn), family).Some? then AddScore(3) else Refuse)
    else Pass
  }

  function Next(args: string, k: nat): char {
    if k + 1 < |args| then args[k + 1] else '\0'
  }

  /** The score of an argument string from letter `k` on, -1 when it does not fit. */
  function Score(args: string, k: nat, insn: Insn, v: View, family: Family, score: nat, prefixOk: bool): (r: int)
    requires k <= |args|
    ensures r >= -1
    decreases |args| - k
  {
    if k == |args| then (if v.Prefix? && !prefixOk then -1 else score) else
    match Letter(args[k], Next(args, k), insn, v, family)
    case Refuse => -1
    case Pass => Score(args, k + 1, insn, v, family, score, prefixOk)
    case AcceptPrefix => Score(args, k + 1, insn, v, family, score, true)
    case SetScore(n) => Score(args, k + 1, insn, v, family, n, prefixOk)
    case AddScore(m) => Score(args, k + 1, insn, v, family, score + m, prefixOk)
  }

  function Constraint(args: string, insn: Insn, v: View, family: Family): int {
    Score(args, 0, insn, v, family, 0, false)
  }

  // ---------------------------------------------------------------- prefix classes

  datatype Kind = Plain | Dip | PushM1 | PushM2 | PushM4 | Rest

  function KindOf(v: View): Kind {
    if v.NoPrefix? then Plain
    else if v.matchBits == BDAP_QUICK_OPCODE then
      if v.offset == -4 then PushM4
      else if v.offset == -2 then PushM2
      else if v.offset == -1 then PushM1
      else Rest
    else if v.matchBits == DIP_OPCODE then Dip
    else Rest
  }

  /** A constraint sees a prefix only through its class: push sizes other than 1, 2 and 4 fit nothing. */
  lemma LetterSeesKind(c: char, next: char, insn: Insn, v: View, w: View, family: Family)
    requires KindOf(v) == KindOf(w)
    ensures Letter(c, next, insn, v, family) == Letter(c, next, insn, w, family)
  {
    hide SpecRegInfo, Field12, PostIncrement;
  }

  lemma {:induction false} ScoreSeesKind(args: string, k: nat, insn: Insn, v: View, w: View, family: Family,
                                         score: nat, prefixOk: bool)
    requires KindOf(v) == KindOf(w) && k <= |args|
    ensures Score(args, k, insn, v, family, score, prefixOk) == Score(args, k, insn, w, family, score, prefixOk)
    decreases |args| - k
  {
    hide Letter;
    if k < |args| {
      LetterSeesKind(args[k], Next(args, k), insn, v, w, family);
      match Letter(args[k], Next(args, k), insn, v, family)
      case Refuse =>
      case Pass => ScoreSeesKind(args, k + 1, insn, v, w, family, score, prefixOk);
      case AcceptPrefix => ScoreSeesKind(args, k + 1, insn, v, w, family, score, true);
      case SetScore(n) => ScoreSeesKind(args, k + 1, insn, v, w, family, n, prefixOk);
      case AddScore(m) => ScoreSeesKind(args, k + 1, insn, v, w, family, score + m, prefixOk);
    }
  }

  /** A constraint and an instruction that tell a class from the others. */
  function Telling(kind: Kind): (string, Insn) {
    match kind
    case Plain => ("!", 0)
    case Dip => ("s", 0x400)
    case PushM1 => ("BP", 0)
    case PushM2 => ("BP", 0x4000)
    case PushM4 => ("BR", 0x20)
    case Rest => ("", 0)
  }

  lemma TellingBits()
    ensures Field12(0) == 0 && Field12(0x4000) == 4 && PostIncrement(0x400)
  {
  }

  lemma TellingScore(kind: Kind, v: View)
    requires kind != Rest && (kind == Plain || v.Prefix?)
    ensures var (args, insn) := Telling(kind);
            Constraint(args, insn, v, FamilyV0V10) >= 0 <==> (KindOf(v) == kind) == (kind != Dip)
  {
    var (args, insn) := Telling(kind);
    hide SpecRegInfo, Field12, PostIncrement;
    LowRegistersV0V10();
    NextRegistersV0V10();
    TellingBits();
    var e := Letter(args[0], Next(args, 0), insn, v, FamilyV0V10);
    assert e == AcceptPrefix || e == Refuse || e == Pass;
    if kind in {PushM1, PushM2, PushM4} && e == AcceptPrefix {
      assert Letter(args[1], Next(args, 1), insn, v, FamilyV0V10) in {AddScore(3), Pass};
    }
  }

  /** The classes are exactly what constraints can tell apart. */
  lemma ClassIff(v: View, w: View)
    ensures KindOf(v) == KindOf(w) <==>
            forall args: string, insn, family :: Constraint(args, insn, v, family) == Constraint(args, insn, w, family)
  {
    hide Score, Letter;
    if KindOf(v) == KindOf(w) {
      forall args: string, insn, family
        ensures Constraint(args, insn, v, family) == Constraint(args, insn, w, family)
      {
        ScoreSeesKind(args, 0, insn, v, w, family, 0, false);
      }
    } else {
      var kind := if v.NoPrefix? || w.NoPrefix? then Plain else if KindOf(v) == Rest then KindOf(w) else KindOf(v);
      var (args, insn) := Telling(kind);
      TellingScore(kind, v);
      TellingScore(kind, w);
      assert Constraint(args, insn, v, FamilyV0V10) != Constraint(args, insn, w, FamilyV0V10);
    }
  }

  // ---------------------------------------------------------------- the search

  /** The versions the search knows what to do with; it aborts on any other. */
  predicate Handled(version: Version, family: Family) {
    version != V8 && (family != FamilyV32 ==> version != V3_10)
  }

  predicate Considered(version: Version, family: Family) {
    if family == FamilyV32 then version in {All, V3p, V8p, V10p, V32p} else version != V32p
  }

  predicate BitsFit(op: Opcode, insn: Insn) {
    op.matchBits & insn == op.matchBits && op.loseBits & insn == 0
  }

  function Wide(x: Insn): bv32 {
    x as bv32
  }

  /** The bits an entry determines, one way or the other. */
  function FixedBits(op: Opcode): bv32 {
    Wide(op.matchBits | op.loseBits)
  }

  /** How well an entry matches, -1 when it does not. */
  function Level(op: Opcode, insn: Insn, v: View, family: Family): (r: int)
    ensures r >= -1
  {
    if Considered(op.version, family) && BitsFit(op, insn) && Constraint(op.args, insn, v, family) >= 0
    then Constraint(op.args, insn, v, family) + 2 * Popcount(FixedBits(op))
    else -1
  }

  const FULL_MATCH: int := 32

  function Levels(table: seq<Opcode>, insn: Insn, v: View, family: Family): (ls: seq<int>)
    ensures |ls| == |table|
    ensures forall i :: 0 <= i < |table| ==> ls[i] == Level(table[i], insn, v, family) >= -1
  {
    seq(|table|, i requires 0 <= i < |table| => Level(table[i], insn, v, family))
  }

  /** The search from entry `i` on, with the best entry so far and its level. */
  function Search(levels: seq<int>, i: nat, best: Option<nat>, level: int): (r: Option<nat>)
    requires i <= |levels| && (best.Some? ==> best.value < |levels|)
    ensures r.Some? ==> r.value < |levels|
    decreases |levels| - i
  {
    if i == |levels| then best
    else if levels[i] <= level then Search(levels, i + 1, best, level)
    else if levels[i] >= FULL_MATCH then Some(i)
    else Search(levels, i + 1, Some(i), levels[i])
  }

  /** What the search without any cache finds. */
  function Lookup(table: seq<Opcode>, insn: Insn, v: View, family: Family): (r: Option<nat>)
    ensures r.Some? ==> r.value < |table|
  {
    Search(Levels(table, insn, v, family), 0, None, -1)
  }

  /** Of the first `n` entries: the first full match; without one, the first of the best matches; nothing
      if nothing matches. */
  ghost predicate IsBest(levels: seq<int>, n: nat, r: Option<nat>)
    requires n <= |levels|
  {
    match r
    case None => forall j :: 0 <= j < n ==> levels[j] == -1
    case Some(k) =>
      && k < n && levels[k] >= 0
      && (forall j :: 0 <= j < k ==> levels[j] < FULL_MATCH)
      && (levels[k] >= FULL_MATCH ||
          ((forall j :: 0 <= j < n ==> levels[j] <= levels[k]) && (forall j :: 0 <= j < k ==> levels[j] < levels[k])))
  }

  lemma {:induction false} SearchFindsBest(levels: seq<int>, i: nat, best: Option<nat>, level: int)
    requires i <= |levels| && level < FULL_MATCH && forall j :: 0 <= j < |levels| ==> levels[j] >= -1
    requires IsBest(levels, i, best) && level == if best.Some? then levels[best.value] else -1
    ensures IsBest(levels, |levels|, Search(levels, i, best, level))
    decreases |levels| - i
  {
    if i < |levels| {
      if levels[i] <= level {
        SearchFindsBest(levels, i + 1, best, level);
      } else if levels[i] < FULL_MATCH {
        SearchFindsBest(levels, i + 1, Some(i), levels[i]);
      }
    }
  }

  lemma BestIsUnique(levels: seq<int>, q: Option<nat>, r: Option<nat>)
    requires IsBest(levels, |levels|, q) && IsBest(levels, |levels|, r)
    ensures q == r
  {
  }

  /** The lookup is the best match of the whole table, and nothing else is. */
  lemma LookupIsBest(table: seq<Opcode>, insn: Insn, v: View, family: Family, r: Option<nat>)
    ensures IsBest(Levels(table, insn, v, family), |table|, r) <==> r == Lookup(table, insn, v, family)
  {
    hide Search, Level, IsBest;
    var levels := Levels(table, insn, v, family);
    NoneIsBestOfNothing(levels);
    SearchFindsBest(levels, 0, None, -1);
    if IsBest(levels, |table|, r) {
      BestIsUnique(levels, r, Lookup(table, insn, v, family));
    }
  }

  lemma NoneIsBestOfNothing(levels: seq<int>)
    ensures IsBest(levels, 0, None)
  {
  }

  lemma LevelSeesKind(op: Opcode, insn: Insn, v: View, w: View, family: Family)
    requires KindOf(v) == KindOf(w)
    ensures Level(op, insn, v, family) == Level(op, insn, w, family)
  {
    hide Score, KindOf, Popcount, BitsFit, FixedBits;
    ScoreSeesKind(op.args, 0, insn, v, w, family, 0, false);
  }

  /** Lookups of the same instruction agree for all prefixes of one class. */
  lemma LookupSeesKind(table: seq<Opcode>, insn: Insn, v: View, w: View, family: Family)
    requires KindOf(v) == KindOf(w)
    ensures Lookup(table, insn, v, family) == Lookup(table, insn, w, family)
  {
    hide Level, KindOf, Search;
    var a, b := Levels(table, insn, v, family), Levels(table, insn, w, family);
    forall i | 0 <= i < |table| ensures a[i] == b[i] {
      LevelSeesKind(table[i], insn, v, w, family);
    }
    assert a == b;
  }
}

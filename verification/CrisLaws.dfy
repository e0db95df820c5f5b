/** What the opcode search of the CRIS disassembler looks at, spelled out: versions, argument letters, levels. */
module CrisLaws {
  import opened Sectors
  import opened CrisOpcodes

  // ---------------------------------------------------------------- versions

  /** The CPU versions an entry is meant for, as the header that defines them says. */
  predicate MeantFor(version: Version, cpu: nat)
    requires version != Warning
  {
    match version
    case All => true
    case V0_3 => cpu <= 3
    case V3p => 3 <= cpu
    case V8 => cpu == 8
    case V8p => 8 <= cpu
    case SimV0_10 => cpu <= 10
    case V0_10 => cpu <= 10
    case V3_10 => 3 <= cpu <= 10
    case V8_10 => 8 <= cpu <= 10
    case V10 => cpu == 10
    case V10p => 10 <= cpu
    case V32p => 32 <= cpu
  }

  /** CRISv32 considers the entries meant for version 32; the other families consider those meant for some version below
      it, and those of no determinate version. */
  lemma ConsideredIff(version: Version, family: Family)
    requires Handled(version, family)
    ensures version == Warning ==> (Considered(version, family) <==> family != FamilyV32)
    ensures version != Warning && family == FamilyV32 ==> (Considered(version, family) <==> MeantFor(version, 32))
    ensures version != Warning && family != FamilyV32 ==>
              (Considered(version, family) <==> exists cpu: nat :: cpu < 32 && MeantFor(version, cpu))
  {
    if version != Warning && family != FamilyV32 {
      assert MeantFor(version, 0) || MeantFor(version, 10) || version in {V8, V32p};
    }
  }

  // ---------------------------------------------------------------- letters

  /** The register field of an instruction is its four highest bits. */
  lemma FieldBits(insn: Insn)
    ensures Field12(insn) & 8 != 0 <==> insn & 0x8000 != 0
    ensures Field12(insn) & 4 != 0 <==> insn & 0x4000 != 0
    ensures Field12(insn) & 2 != 0 <==> insn & 0x2000 != 0
    ensures Field12(insn) & 1 != 0 <==> insn & 0x1000 != 0
    ensures Field12(insn) & 0xfff0 == 0
  {
  }

  /** Letters that look at the prefix: none allowed, one without side effect, one that may not be "dip" when there is a
      side effect. */
  lemma PrefixLetters(next: char, insn: Insn, v: View, family: Family)
    ensures Letter('!', next, insn, v, family) == if v == NoPrefix && family == FamilyV0V10 then Pass else Refuse
    ensures Letter('S', next, insn, v, family) ==
            if v != NoPrefix && insn & 0x400 == 0 then AcceptPrefix else Refuse
    ensures forall c :: c in "syY" ==>
              Letter(c, next, insn, v, family) ==
              if v == NoPrefix then Pass
              else if insn & 0x400 != 0 && v.matchBits == 0x0970 then Refuse else AcceptPrefix
  {
  }

  /** The letter of a push prefix, a quick offset: minus the size of the special register, or minus four. */
  lemma PushLetter(next: char, insn: Insn, v: View, family: Family)
    ensures var e := Letter('B', next, insn, v, family);
            && (e == AcceptPrefix || e == Refuse)
            && (e == AcceptPrefix <==>
                  && v.Prefix? && v.matchBits == 0x0100
                  && ((next == 'P' && exists name, size: nat ::
                         RegIs(Field12(insn), family, name, size) && v.offset as int == 0 - size)
                      || (next == 'R' && insn & 0x30 == 0x20 && v.offset == -4)))
  {
    hide Field12, SpecRegInfo;
    if SpecRegInfo(Field12(insn), family).Some? {
      var reg := SpecRegInfo(Field12(insn), family).value;
      assert RegIs(Field12(insn), family, reg.name, reg.size);
    }
  }

  /** Letters that look at the instruction alone. */
  lemma InsnLetters(next: char, insn: Insn, v: View, family: Family)
    ensures Letter('U', next, insn, v, family) == Refuse
    ensures Letter('M', next, insn, v, family) == if insn & 0xf000 in {0x0000, 0x4000, 0x8000} then Pass else Refuse
    ensures Letter('m', next, insn, v, family) == if insn & 0x30 == 0x30 then Refuse else Pass
    ensures Letter('D', next, insn, v, family) == if insn >> 12 == insn & 0xf then SetScore(5) else Refuse
  {
    hide SpecRegInfo;
    FieldValues(insn);
  }

  lemma FieldValues(insn: Insn)
    ensures Field12(insn) in {0, 4, 8} <==> insn & 0xf000 in {0x0000, 0x4000, 0x8000}
    ensures Field12(insn) == insn >> 12
  {
  }

  /** A special register is required; all other letters are let pass. */
  lemma OtherLetters(c: char, next: char, insn: Insn, v: View, family: Family)
    ensures Letter('P', next, insn, v, family) ==
            if exists name, size :: RegIs(Field12(insn), family, name, size) then AddScore(3) else Refuse
    ensures c !in "!UMmSsyYBDP" ==> Letter(c, next, insn, v, family) == Pass
  {
    hide Field12, SpecRegInfo;
    if SpecRegInfo(Field12(insn), family).Some? {
      var reg := SpecRegInfo(Field12(insn), family).value;
      assert RegIs(Field12(insn), family, reg.name, reg.size);
    }
  }

  /** The offset of a prefix is its low byte as a signed number. */
  lemma Offsets()
    ensures SignedByte(0x01fc) == -4 && SignedByte(0x01fe) == -2 && SignedByte(0x01ff) == -1
    ensures SignedByte(0x0100) == 0 && SignedByte(0x017f) == 127 && SignedByte(0x0180) == -128
  {
  }

  // ---------------------------------------------------------------- the score of an argument string

  function At(args: string, k: nat, insn: Insn, v: View, family: Family): Effect
    requires k < |args|
  {
    Letter(args[k], Next(args, k), insn, v, family)
  }

  /** None of the first `n` letters refuses. */
  ghost predicate Fine(args: string, n: nat, insn: Insn, v: View, family: Family)
    requires n <= |args|
  {
    forall k: nat :: k < n ==> At(args, k, insn, v, family) != Refuse
  }

  /** One of them asks for the prefix. */
  ghost predicate Asked(args: string, n: nat, insn: Insn, v: View, family: Family)
    requires n <= |args|
  {
    exists k: nat :: k < n && At(args, k, insn, v, family) == AcceptPrefix
  }

  /** No letter refuses, and a prefix is asked for by one of them. */
  ghost predicate Accepts(args: string, insn: Insn, v: View, family: Family) {
    Fine(args, |args|, insn, v, family) && (v.Prefix? ==> Asked(args, |args|, insn, v, family))
  }

  lemma OneLetter(args: string, k: nat, insn: Insn, v: View, family: Family)
    requires k < |args|
    ensures var e := At(args, k, insn, v, family);
            && (Fine(args, k + 1, insn, v, family) <==> Fine(args, k, insn, v, family) && e != Refuse)
            && (Asked(args, k + 1, insn, v, family) <==> Asked(args, k, insn, v, family) || e == AcceptPrefix)
            && (e == Refuse ==> !Fine(args, |args|, insn, v, family))
  {
    hide At;
  }

  function Count(s: string, c: char): nat {
    if s == [] then 0 else Count(s[..|s| - 1], c) + if s[|s| - 1] == c then 1 else 0
  }

  /** Where the last 'D' before letter `k` is, or -1. */
  ghost predicate LastD(args: string, k: nat, d: int)
    requires k <= |args|
  {
    -1 <= d < k && (d >= 0 ==> args[d] == 'D') && forall j :: d < j < k ==> args[j] != 'D'
  }

  ghost function Points(args: string, k: nat, d: int): nat
    requires k <= |args| && LastD(args, k, d)
  {
    (if d >= 0 then 5 else 0) + 3 * Count(args[d + 1..k], 'P')
  }

  lemma Effects(args: string, k: nat, insn: Insn, v: View, family: Family)
    requires k < |args|
    ensures var e := At(args, k, insn, v, family);
            && (e.SetScore? <==> args[k] == 'D' && e != Refuse) && (e.SetScore? ==> e.n == 5)
            && (e.AddScore? <==> args[k] == 'P' && e != Refuse) && (e.AddScore? ==> e.m == 3)
  {
    hide SpecRegInfo, Field12, PostIncrement;
  }

  lemma CountOne(args: string, k: nat, d: int)
    requires -1 <= d < k < |args|
    ensures Count(args[d + 1..k + 1], 'P') == Count(args[d + 1..k], 'P') + if args[k] == 'P' then 1 else 0
    ensures Count(args[k + 1..k + 1], 'P') == 0
  {
    assert args[d + 1..k + 1][..k - d - 1] == args[d + 1..k];
  }

  lemma ScoreStep(args: string, k: nat, insn: Insn, v: View, family: Family, score: nat, prefixOk: bool)
    requires k <= |args|
    ensures Score(args, k, insn, v, family, score, prefixOk) ==
            if k == |args| then (if v.Prefix? && !prefixOk then -1 else score) else
            var e := At(args, k, insn, v, family);
            if e == Refuse then -1
            else Score(args, k + 1, insn, v, family,
                       if e.SetScore? then e.n else if e.AddScore? then score + e.m else score,
                       prefixOk || e == AcceptPrefix)
  {
    hide Letter;
  }

  /** The score from letter `k` on, with the points so far. */
  lemma {:induction false} ScoreFrom(args: string, k: nat, d: int, insn: Insn, v: View, family: Family, prefixOk: bool)
    returns (last: int)
    requires k <= |args| && LastD(args, k, d)
    requires Fine(args, k, insn, v, family) && (prefixOk <==> Asked(args, k, insn, v, family))
    ensures LastD(args, |args|, last)
    ensures Score(args, k, insn, v, family, Points(args, k, d), prefixOk) ==
            if Accepts(args, insn, v, family) then Points(args, |args|, last) else -1
    decreases |args| - k
  {
    hide Letter, Points, Fine, Asked, Score, At, LastD;
    last := d;
    ScoreStep(args, k, insn, v, family, Points(args, k, d), prefixOk);
    if k < |args| {
      var e := At(args, k, insn, v, family);
      OneLetter(args, k, insn, v, family);
      if e == Refuse {
        last := FindLastD(args);
      } else {
        var d' := if args[k] == 'D' then k else d;
        PointsStep(args, k, d, insn, v, family);
        last := ScoreFrom(args, k + 1, d', insn, v, family, prefixOk || e == AcceptPrefix);
      }
    }
  }

  lemma PointsStep(args: string, k: nat, d: int, insn: Insn, v: View, family: Family)
    requires k < |args| && LastD(args, k, d) && At(args, k, insn, v, family) != Refuse
    ensures var e, d' := At(args, k, insn, v, family), if args[k] == 'D' then k else d;
            && LastD(args, k + 1, d')
            && Points(args, k + 1, d') ==
               if e.SetScore? then e.n else if e.AddScore? then Points(args, k, d) + e.m else Points(args, k, d)
  {
    hide Letter, Count, At;
    Effects(args, k, insn, v, family);
    CountOne(args, k, d);
  }

  lemma {:induction false} FindLastD(args: string) returns (last: int)
    ensures LastD(args, |args|, last)
  {
    last := -1;
    if args != [] {
      var n := |args| - 1;
      last := FindLastD(args[..n]);
      if args[n] == 'D' {
        last := n;
      }
    }
  }

  /** What an argument string is worth: nothing when a letter refuses or a prefix is not asked for; otherwise five
      points for a register that is named twice, and three for each special register after it. */
  lemma ConstraintIs(args: string, insn: Insn, v: View, family: Family) returns (last: int)
    ensures LastD(args, |args|, last)
    ensures Constraint(args, insn, v, family) ==
            if Accepts(args, insn, v, family) then Points(args, |args|, last) else -1
  {
    hide Letter, Score, Accepts, At;
    assert Count(args[0..0], 'P') == 0;
    last := ScoreFrom(args, 0, -1, insn, v, family, false);
  }

  // ---------------------------------------------------------------- levels

  lemma BitsOfFit(op: Opcode, insn: Insn)
    requires BitsFit(op, insn)
    ensures op.matchBits & insn == op.matchBits && op.loseBits & insn == 0
  {
  }

  lemma FitOfBits(op: Opcode, insn: Insn)
    requires op.matchBits & insn == op.matchBits && op.loseBits & insn == 0
    ensures BitsFit(op, insn)
  {
  }

  lemma BitsAre(op: Opcode, insn: Insn)
    ensures BitsFit(op, insn) <==> op.matchBits & insn == op.matchBits && op.loseBits & insn == 0
  {
    hide BitsFit;
    if BitsFit(op, insn) {
      BitsOfFit(op, insn);
    } else if op.matchBits & insn == op.matchBits && op.loseBits & insn == 0 {
      FitOfBits(op, insn);
    }
  }

  lemma FixedBitsAre(op: Opcode)
    ensures FixedBits(op) == Wide(op.matchBits | op.loseBits)
  {
    hide Wide;
  }

  /** An entry matches when it is considered, all bits it wants are set, none it excludes is, and its arguments fit; it
      then gets two points for every bit it determines, and those of its arguments. */
  lemma LevelIs(op: Opcode, insn: Insn, v: View, family: Family)
    ensures Level(op, insn, v, family) ==
            if Considered(op.version, family) && op.matchBits & insn == op.matchBits && op.loseBits & insn == 0
               && Accepts(op.args, insn, v, family)
            then Constraint(op.args, insn, v, family) + 2 * Popcount(Wide(op.matchBits | op.loseBits)) else -1
  {
    BitsAre(op, insn);
    FixedBitsAre(op);
    hide Constraint, Accepts, Popcount, Considered, BitsFit, FixedBits, Wide;
    var last := ConstraintIs(op.args, insn, v, family);
  }

  /** An entry without arguments: a prefix never goes with it, and without one only its bits count. */
  lemma PlainLevel(op: Opcode, insn: Insn, v: View, family: Family)
    requires op.args == ""
    ensures Level(op, insn, v, family) ==
            if Considered(op.version, family) && op.matchBits & insn == op.matchBits && op.loseBits & insn == 0
               && v == NoPrefix
            then 2 * Popcount(Wide(op.matchBits | op.loseBits)) else -1
  {
    BitsAre(op, insn);
    FixedBitsAre(op);
    hide Popcount, Considered, BitsFit, FixedBits, Wide;
  }

  lemma {:induction false} AllOnes()
    ensures Popcount(0xffff) == 16
  {
    assert Half(0xffff) == 0x7fff && Half(0x7fff) == 0x3fff && Half(0x3fff) == 0x1fff && Half(0x1fff) == 0xfff;
    assert Half(0xfff) == 0x7ff && Half(0x7ff) == 0x3ff && Half(0x3ff) == 0x1ff && Half(0x1ff) == 0xff;
    assert Half(0xff) == 0x7f && Half(0x7f) == 0x3f && Half(0x3f) == 0x1f && Half(0x1f) == 0xf;
    assert Half(0xf) == 7 && Half(7) == 3 && Half(3) == 1 && Half(1) == 0;
    assert Popcount(0xf) == 4;
    assert Popcount(0xff) == 8;
    assert Popcount(0xfff) == 12;
  }

  /** An entry that determines all sixteen bits matches fully: the search ends with it. */
  lemma FullMatch(op: Opcode, insn: Insn, family: Family)
    requires op.args == "" && op.matchBits | op.loseBits == 0xffff && Considered(op.version, family)
    requires op.matchBits & insn == op.matchBits && op.loseBits & insn == 0
    ensures Level(op, insn, NoPrefix, family) == 32 == FULL_MATCH
  {
    hide Popcount, Considered;
    AllOnes();
    PlainLevel(op, insn, NoPrefix, family);
  }

  /** An instruction that only CRISv32 has is found for it and for no other family. */
  lemma OnlyV32(op: Opcode, family: Family)
    requires op == Opcode("rfe", 0x2930, 0xd6cf, "", V32p)
    ensures Lookup([op], 0x2930, NoPrefix, family) == if family == FamilyV32 then Some(0) else None
  {
    hide Level, Lookup;
    PlainLevel(op, 0x2930, NoPrefix, family);
    LookupIsBest([op], 0x2930, NoPrefix, family, if family == FamilyV32 then Some(0) else None);
  }
}

// Conditions of the refinement that can be read off a program with branches.
module BranchingPrograms {
  import opened Mips
  import S = Sequential
  import opened AluAgreement
  import opened Schedule

  // slt, srl and ori have different results in the two simulators.
  predicate AlwaysSame(i: Instruction) {
    i.opcode != 0xd && !(i.opcode == 0x0 && i.func in {0x2a, 0x2})
  }

  predicate Simple(i: Instruction) {
    && (IsArithmetic(i) || IsLoad(i) || IsStore(i) || IsBranch(i))
    && AlwaysSame(i)
    && (Writes(i) ==> Dest(i) != 0)
  }

  predicate Reads(i: Instruction, r: Register) {
    (UsesRs(i) && i.rs == r) || (UsesRt(i) && i.rt == r)
  }

  // The instruction at `to` can be executed right after the one at `from`.
  predicate Follows(p: Program, from: Word, to: Word) {
    && InText(p, from) && InText(p, to)
    && (to == Next(from) || (IsBranch(Fetch(p, from)) && to == BranchTarget(from, Fetch(p, from).imm)))
  }

  predicate Spoils(p: Program, a: Word, b: Word) {
    && InText(p, a) && InText(p, b)
    && Dest(Fetch(p, a)) != 0 && !Writes(Fetch(p, a)) && Reads(Fetch(p, b), Dest(Fetch(p, a)))
  }

  // On no path does one of the two instructions after a store or branch read its rt.
  ghost predicate Spaced(p: Program) {
    && (forall a: Word, b: Word :: Follows(p, a, b) ==> !Spoils(p, a, b))
    && (forall a: Word, b: Word, c: Word :: Follows(p, a, b) && Follows(p, b, c) ==> !Spoils(p, a, c))
  }

  // A branch stays in the text: the program ends behind its last instruction.
  ghost predicate StaysInText(p: Program) {
    forall a: Word :: InText(p, a) && IsBranch(Fetch(p, a)) ==> InText(p, BranchTarget(a, Fetch(p, a).imm))
  }

  ghost predicate Checkable(p: Program) {
    (forall i :: i in p ==> Simple(i)) && Spaced(p) && StaysInText(p)
  }

  // Every load and store finds its word in memory.
  ghost predicate AddressesInMemory(j: Job) {
    forall k: nat :: j.Live(k) && (IsLoad(j.Instr(k)) || IsStore(j.Instr(k)))
      ==> InMemory(S.EffectiveAddress(j.Instr(k), j.Rs(k)))
  }

  lemma LivePc(j: Job, k: nat)
    requires (forall i :: i in j.program ==> Simple(i)) && j.Live(k)
    ensures InText(j.program, j.At(k).pc) && Simple(j.Instr(k))
    ensures j.Live(k + 1) ==> Follows(j.program, j.At(k).pc, j.At(k + 1).pc)
    ensures j.At(k + 1).pc == if j.Outcome(k) then BranchTarget(j.At(k).pc, j.Instr(k).imm) else Next(j.At(k).pc)
    ensures k > 0 ==> j.Live(k - 1)
  {
    hide S.Value;
    assert j.Instr(k) in j.program;
    if k > 0 {
      S.LiveBefore(j.program, j.start, k - 1, k);
    }
  }

  lemma {:induction false} ZeroKept(j: Job, k: nat)
    requires forall i :: i in j.program ==> Simple(i)
    requires j.start.regs[0] == 0
    ensures j.At(k).regs[0] == 0
  {
    hide S.Value, S.LoadedValue, S.Stored;
    if k > 0 {
      ZeroKept(j, k - 1);
      if j.Live(k - 1) {
        assert j.Instr(k - 1) in j.program;
      }
    }
  }

  lemma ForwardingIsSafe(j: Job, k: nat)
    requires Checkable(j.program) && j.Live(k)
    ensures j.OperandsForwarded(k)
  {
    hide S.Run, Job.Bubbles, Follows, Simple, StaysInText, InText;
    LivePc(j, k);
    if k >= 1 {
      LivePc(j, k - 1);
      assert !Spoils(j.program, j.At(k - 1).pc, j.At(k).pc);
    }
    if k >= 2 {
      LivePc(j, k - 2);
      assert !Spoils(j.program, j.At(k - 2).pc, j.At(k).pc);
    }
  }

  lemma CheckableRefines(j: Job)
    requires Checkable(j.program) && AddressesInMemory(j)
    requires j.start.pc == TEXT_START && j.start.regs[0] == 0
    ensures j.Refines()
  {
    hide S.Run, Job.OperandsForwarded, Job.Predictor, Job.ResumePc, Spaced;
    forall k: nat | j.Live(k)
      ensures j.Clean(k) && j.LeavesText(k)
    {
      LivePc(j, k);
      ForwardingIsSafe(j, k);
      ZeroKept(j, k + 1);
    }
    forall i | i in j.program
      ensures i.opcode != 0x3
    {
      assert Simple(i);
    }
  }
}

// What forwarding from an instruction that writes no register does to a run: up to
// which instruction the pipeline is right, and what it computes there.
module FalseForwarding {
  import opened Mips
  import S = Sequential
  import opened AluAgreement
  import opened Pipeline
  import opened Schedule
  import opened Refinement
  import opened PipelineTheorems

  // ---- EX

  // The pipeline three cycles before instruction k is written back: ID hands it over.
  lemma InIdOnTime(j: Job, k: nat) returns (s: State)
    requires j.SoundBefore(k) && j.Live(k)
    ensures j.RetireCycle(k) >= 5 && s == After(j, j.RetireCycle(k) - 3)
    ensures Invariant(j, j.RetireCycle(k) - 3, s) && s.run && InId(s) == k && Issues(s)
  {
    hide Job.RetireCycle, Start, Job.SoundBefore, Invariant, S.Run, Cycle, PipeInText;
    FirstRetires(j);
    RetiresInOrder(j, 0, k);
    var n := j.RetireCycle(k) - 3;
    s := After(j, n);
    InvariantBefore(j, k, n);
    if Mispredicted(s) {
      AfterMisprediction(j, n, s);
    }
    LastInId(j, k, n, s);
  }

  lemma FirstRetires(j: Job)
    ensures j.RetireCycle(0) == 5
  {
  }

  // Its state when EX runs.
  function EnteringEx(s: State): State { MemStage(WriteBack(Advance(s))) }

  lemma EntersEx(j: Job, n: nat, s: State)
    requires j.SoundBefore(InId(s)) && Invariant(j, n, s) && s.run && Issues(s)
    ensures Accessed(j, s, EnteringEx(s))
  {
    hide Job.SoundBefore, Job.RetireCycle, Finished, Completed, Accessed, WroteBack, FrontRight;
    WriteBackStep(j, n, s);
    MemStep(j, n, s, WriteBack(Advance(s)));
  }

  // The ALU computes on the operands seen.
  lemma ComputesSeen(j: Job, n: nat, s: State, t: State)
    requires j.SoundBefore(InId(s)) && j.Live(InId(s)) && Invariant(j, n, s) && Issues(s) && Accessed(j, s, t)
    ensures var i, x := j.Instr(InId(s)), Executed(t);
      && !IsJumpLatch(t.idEx) && t.pipe.x == j.At(InId(s)).pc
      && x.aluOut == j.ValueSeen(InId(s))
      && x.dest == Dest(i) && x.mem == ControlOf(i).mem && x.wb == ControlOf(i).wb
      && (IsBranch(i) ==> x.brTake == (j.ValueSeen(InId(s)) != 0) && x.brTarget == BranchTarget(t.pipe.x, i.imm))
  {
    hide Job.OperandSeen, Job.Clean, Job.RetireCycle, Completed, S.Run, FetchRight, RedirectRight, HazardRight;
    KnownAt(j, InId(s), InId(s));
    OperandsSeen(j, n, s, t.fwd);
  }

  // Everything that EX leaves is right if and only if the value is.
  lemma FinishedIfSame(j: Job, k: nat, x: ExMem)
    requires j.Live(k) && j.Known(k) && x.aluOut == j.ValueSeen(k)
    requires var i := j.Instr(k);
      && x.dest == Dest(i) && x.mem == ControlOf(i).mem && x.wb == ControlOf(i).wb
      && (IsBranch(i) ==> x.brTake == (j.ValueSeen(k) != 0) && x.brTarget == BranchTarget(j.At(k).pc, i.imm))
    ensures Finished(j, k, x) <==> j.ValueSeen(k) == j.ValueDue(k)
  {
    hide Job.OperandSeen, Job.ValueSeen;
    if IsArithmetic(j.Instr(k)) {
      StepFacts(j, k);
    }
  }

  // With the right operands, only slt, srl and ori can go wrong.
  lemma ForwardedMeansSame(j: Job, k: nat)
    requires j.Live(k) && j.Known(k) && j.OperandsForwarded(k)
    ensures j.ValueSeen(k) == j.ValueDue(k)
      <==> (IsArithmetic(j.Instr(k)) ==> SameArithmetic(j.Instr(k), j.Rs(k), j.Rt(k)))
  {
    hide Job.FromPrevious, Job.FromBeforePrevious, S.Run, SameArithmetic, S.Value;
    var i := j.Instr(k);
    assert !UsesRs(i) ==> i.opcode == 0xf || (i.opcode == 0x0 && i.func in {0x0, 0x2});
    if IsArithmetic(i) {
      ArithmeticAgrees(i, j.Rs(k), j.Rt(k));
    }
  }

  // ---- The rest of a cycle, and the two cycles after it

  predicate NoLink(p: Program) { forall i :: i in p ==> i.opcode != 0x3 }

  // EX, ID, IF and the end of the cycle leave the registers, the memory and what
  // MEM and WB hold.
  predicate SameBack(t: State, r: State) {
    && r.regs == t.regs && r.mem == t.mem && r.memWb == t.memWb
    && r.retired == t.retired && r.fault == t.fault && r.run == t.run
    && r.pipe.x == t.pipe.x && r.pipe.m == t.pipe.m && r.pipe.w == t.pipe.w
  }

  lemma ExKeeps(t: State)
    ensures SameBack(t, ExStage(t)) && (t.pipe.x != 0 ==> ExStage(t).exMem == Executed(t))
  {
    hide Executed, IsJumpLatch, IsBranchLatch, BranchTarget;
  }

  lemma IdKeeps(p: Program, t: State)
    requires Slot(p, t.pipe.d) && NoLink(p)
    ensures SameBack(t, IdStage(p, t)) && IdStage(p, t).exMem == t.exMem
  {
    hide Decoded, Redirect, LoadUseHazard, Next;
    assert t.pipe.d != 0 ==> Fetch(p, t.pipe.d) in p;
  }

  lemma IfKeeps(p: Program, t: State)
    requires Slot(p, t.pipe.f)
    ensures SameBack(t, IfStage(p, t)) && IfStage(p, t).exMem == t.exMem
  {
    hide Next, NextFetch;
  }

  lemma LeavesBack(p: Program, s: State)
    requires PipeInText(p, s.pipe) && NoLink(p)
    ensures var t, r := EnteringEx(s), Cycle(p, s);
      && SameBack(t.(regs := t.regs[0 := 0]), r.(run := t.run))
      && (t.run && (t.pipe.x != 0 || t.pipe.m != 0) ==> r.run)
      && (t.pipe.x != 0 ==> r.exMem == Executed(t))
  {
    hide Executed, EnteringEx, ExStage, IdStage, IfStage, BackEnd, NoLink;
    EntersInText(p, s);
    ExKeeps(EnteringEx(s));
    IdKeeps(p, BackEnd(s));
    IfKeeps(p, IdStage(p, BackEnd(s)));
  }

  lemma EntersInText(p: Program, s: State)
    requires PipeInText(p, s.pipe)
    ensures PipeInText(p, EnteringEx(s).pipe)
    ensures BackEnd(s) == ExStage(EnteringEx(s))
  {
  }

  // The registers after WB.
  function WrittenBack(s: State): RegFile {
    if s.pipe.m != 0 && s.memWb.wb.regWrite then s.regs[s.memWb.dest := Result(s.memWb)] else s.regs
  }

  lemma RegistersAfter(s: State)
    ensures EnteringEx(s).regs == WrittenBack(s)
    ensures EnteringEx(s).retired == s.retired + if s.pipe.m != 0 then 1 else 0
    ensures EnteringEx(s).pipe.w == s.pipe.m && EnteringEx(s).pipe.m == s.pipe.x
  {
  }

  // An instruction that is no branch goes through MEM.
  lemma PassesMem(s: State)
    requires s.pipe.x != 0 && !s.exMem.mem.branch && !Faults(s)
    ensures var t, a := EnteringEx(s), s.exMem.aluOut;
      && t.run == s.run && t.fault == s.fault
      && t.mem == (if s.exMem.mem.memWrite then WriteWord(s.mem, a, WrittenBack(s)[s.exMem.dest]) else s.mem)
      && t.memWb.dest == s.exMem.dest && t.memWb.wb == s.exMem.wb
      && (s.exMem.mem.memRead ==> t.memWb.memOut == ReadWord(s.mem, a))
      && (!s.exMem.mem.memRead ==> t.memWb.aluOut == a)
  {
    hide ReadWord, WriteWord;
  }

  // ---- Theorems

  // Instruction k has left EX with the value of the operands seen; the ones before
  // it have done what they should.
  ghost predicate LeftEx(j: Job, k: nat, r: State)
    requires j.Live(k)
  {
    var i := j.Instr(k);
    && r.run && !r.fault && InEx(r) == k && r.pipe.x == j.At(k).pc
    && WrittenBack(r) == j.At(k).regs && r.mem == j.At(k).mem
    && r.exMem.aluOut == j.ValueSeen(k)
    && r.exMem.dest == Dest(i) && r.exMem.mem == ControlOf(i).mem && r.exMem.wb == ControlOf(i).wb
    && (IsBranch(i) ==>
          && r.exMem.brTake == (j.ValueSeen(k) != 0)
          && r.exMem.brTarget == BranchTarget(j.At(k).pc, i.imm))
  }

  lemma CompletedWrites(j: Job, k: nat, regs: RegFile, l: MemWb)
    requires j.Live(k) && j.Supported(k) && Completed(j, k, l) && regs == j.At(k).regs
    ensures (if l.wb.regWrite then regs[l.dest := Result(l)] else regs) == j.At(k + 1).regs
  {
    hide Job.Poison, S.Value;
    StepFacts(j, k);
  }

  lemma RegistersBefore(j: Job, s: State, t: State)
    requires Accessed(j, s, t) && j.SoundBefore(InId(s)) && Issues(s)
    ensures t.regs[0] == 0
    ensures (if s.pipe.x != 0 && t.memWb.wb.regWrite then t.regs[t.memWb.dest := Result(t.memWb)] else t.regs)
      == j.At(InId(s)).regs
  {
    hide Job.SoundBefore, Completed, Job.Supported, S.Run;
    SoundEarlier(j, InEx(s), InId(s));
    RegisterZero(j, InEx(s));
    if s.pipe.x != 0 {
      CleanAt(j, InEx(s), InId(s));
      CompletedWrites(j, InEx(s), t.regs, t.memWb);
    }
  }

  lemma LeavesEx(j: Job, n: nat, s: State)
    requires j.SoundBefore(InId(s)) && j.Live(InId(s)) && Invariant(j, n, s) && s.run && Issues(s)
    ensures LeftEx(j, InId(s), Cycle(j.program, s))
  {
    hide Job.Clean, Job.ValueSeen, Executed, EnteringEx, Cycle, Completed, Finished, Job.RetireCycle, S.Run;
    hide FrontRight, HazardRight;
    var t, r := EnteringEx(s), Cycle(j.program, s);
    EntersEx(j, n, s);
    RegistersAfter(s);
    RegistersBefore(j, s, t);
    ComputesSeen(j, n, s, t);
    LeavesBack(j.program, s);
    assert t.regs[0 := 0] == t.regs;
  }

  // Whatever it is handed, instruction k is in EX in its cycle and computes the value
  // of the operands seen. What it leaves is right if and only if that is the value the
  // sequential machine computes, and with the right operands it always is, but for slt,
  // srl and ori.
  lemma ExecutesSeen(j: Job, k: nat)
    requires j.SoundBefore(k) && j.Live(k)
    ensures j.RetireCycle(k) >= 5
    ensures var s := After(j, j.RetireCycle(k) - 2);
      && LeftEx(j, k, s)
      && (Finished(j, k, s.exMem) <==> j.ValueSeen(k) == j.ValueDue(k))
    ensures j.OperandsForwarded(k) ==> (j.ValueSeen(k) == j.ValueDue(k)
      <==> (IsArithmetic(j.Instr(k)) ==> SameArithmetic(j.Instr(k), j.Rs(k), j.Rt(k))))
  {
    hide Job.RetireCycle, Invariant, Issues, Job.ValueSeen, Job.ValueDue, Finished, Cycle, Start, S.Run, Job.Clean;
    hide Job.OperandsForwarded, SameArithmetic;
    var n := j.RetireCycle(k) - 3;
    var s := InIdOnTime(j, k);
    LeavesEx(j, n, s);
    assert After(j, n + 1) == Cycle(j.program, s);
    FinishedIfSame(j, k, After(j, n + 1).exMem);
    if j.OperandsForwarded(k) {
      ForwardedMeansSame(j, k);
    }
  }

  // The registers and the memory after the instruction, on the operands seen.
  ghost function RegistersSeen(j: Job, k: nat): RegFile
    requires j.Live(k) && (IsLoad(j.Instr(k)) ==> InMemory(j.ValueSeen(k)))
  {
    var i, v := j.Instr(k), j.ValueSeen(k);
    if IsLoad(i) then j.At(k).regs[Dest(i) := ReadWord(j.At(k).mem, v)]
    else if Writes(i) then j.At(k).regs[Dest(i) := v]
    else j.At(k).regs
  }

  ghost function MemorySeen(j: Job, k: nat): Memory
    requires j.Live(k) && (IsStore(j.Instr(k)) ==> InMemory(j.ValueSeen(k)))
  {
    if IsStore(j.Instr(k)) then WriteWord(j.At(k).mem, j.ValueSeen(k), j.Rt(k)) else j.At(k).mem
  }

  lemma PassesMemSeen(j: Job, k: nat, s: State)
    requires j.SoundBefore(k) && j.Live(k) && !IsBranch(j.Instr(k)) && LeftEx(j, k, s)
    requires IsLoad(j.Instr(k)) || IsStore(j.Instr(k)) ==> InMemory(j.ValueSeen(k))
    requires PipeInText(j.program, s.pipe)
    ensures var r := Cycle(j.program, s);
      && r.run && !r.fault && r.retired == k && r.pipe.m == j.At(k).pc
      && r.mem == MemorySeen(j, k)
      && r.regs == j.At(k).regs
      && WrittenBack(r) == RegistersSeen(j, k)
  {
    hide Job.Clean, Job.ValueSeen, EnteringEx, Executed, Cycle, ReadWord, WriteWord, S.Run;
    PassesMem(s);
    RegistersAfter(s);
    LeavesBack(j.program, s);
    RegisterZero(j, k);
    assert j.At(k).regs[0 := 0] == j.At(k).regs;
  }

  // It is written back on time, with that value, right or wrong.
  lemma RetiresSeen(j: Job, k: nat)
    requires j.SoundBefore(k) && j.Live(k) && !IsBranch(j.Instr(k))
    requires IsLoad(j.Instr(k)) || IsStore(j.Instr(k)) ==> InMemory(j.ValueSeen(k))
    ensures j.RetireCycle(k) >= 5
    ensures After(j, j.RetireCycle(k) - 1).mem == MemorySeen(j, k)
    ensures var s := After(j, j.RetireCycle(k));
      && s.retired == k + 1 && s.pipe.w == j.At(k).pc
      && s.regs == RegistersSeen(j, k)[0 := 0]
  {
    hide Job.RetireCycle, Finished, Cycle, Start, S.Run, Job.Clean, LeftEx, RegistersSeen, MemorySeen;
    hide WrittenBack, EnteringEx;
    var n := j.RetireCycle(k) - 2;
    ExecutesSeen(j, k);
    var s := After(j, n);
    LeftExRuns(j, k, s);
    PassesMemSeen(j, k, s);
    var r := After(j, n + 1);
    assert r == Cycle(j.program, s);
    assert After(j, n + 2) == Cycle(j.program, r);
    RegistersAfter(r);
    LeavesBack(j.program, r);
  }

  lemma LeftExRuns(j: Job, k: nat, s: State)
    requires j.Live(k) && LeftEx(j, k, s)
    ensures s.run
  {
  }

  // So the registers are right if and only if the value is.
  lemma WrongValueShows(j: Job, k: nat)
    requires j.SoundBefore(k) && j.Live(k) && IsArithmetic(j.Instr(k)) && Dest(j.Instr(k)) != 0
    ensures After(j, j.RetireCycle(k)).regs == j.At(k + 1).regs <==> j.ValueSeen(k) == j.ValueDue(k)
  {
    hide Job.RetireCycle, S.Run, Job.Clean, Job.ValueSeen, S.Value;
    var i, regs := j.Instr(k), j.At(k).regs;
    RetiresSeen(j, k);
    StepFacts(j, k);
    RegisterZero(j, k);
    var seen := regs[Dest(i) := j.ValueSeen(k)];
    assert seen[0 := 0] == seen;
    assert seen[Dest(i)] == j.ValueSeen(k);
  }
}

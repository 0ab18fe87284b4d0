// Concrete programs outside the conditions of the refinement, on which the
// pipelined and the sequential simulator part.
module PipelineLimits {
  import opened Mips
  import S = Sequential
  import opened AluAgreement
  import opened Pipeline
  import opened Schedule
  import opened Refinement
  import opened PipelineTheorems
  import opened FalseForwarding
  import opened ControlPath

  // ---- A store's address forwarded as the value of the register it stores

  // sw $1, 0($2); add $3, $1, $1
  const STORE := Instruction(0x2b, 0, 2, 1, 0, 0, 0, 0)
  const DOUBLE := Instruction(0x0, 0x20, 1, 1, 3, 0, 0, 0)
  const STORE_THEN_READ: Program := [STORE, DOUBLE]

  const REGS: RegFile :=
    [0, 5, DATA_START, 0, 0, 0, 0, 0, 0, 0, 0, 0, 0, 0, 0, 0, 0, 0, 0, 0, 0, 0, 0, 0, 0, 0, 0, 0, 0, 0, 0, 0]

  lemma SequentialResult(mem: Memory)
    ensures var j := Job(STORE_THEN_READ, S.Machine(TEXT_START, REGS, mem));
      j.At(1).pc == TEXT_START + 4 && j.At(1).regs == REGS && j.At(2).regs[3] == 10
  {
    var j := Job(STORE_THEN_READ, S.Machine(TEXT_START, REGS, mem));
    assert j.At(0) == j.start;
    assert j.At(1) == S.Step(j.program, j.start);
    assert j.At(1).pc == TEXT_START + 4 && j.At(1).regs == REGS;
    assert j.At(2) == S.Step(j.program, j.At(1));
  }

  lemma StoreFacts(mem: Memory)
    ensures var j := Job(STORE_THEN_READ, S.Machine(TEXT_START, REGS, mem));
      && j.SoundBefore(1) && j.Live(0) && j.Live(1) && j.Instr(0) == STORE && j.Instr(1) == DOUBLE
      && j.Rs(0) == DATA_START && j.At(1).regs == REGS
  {
    hide S.Value;
    var j := Job(STORE_THEN_READ, S.Machine(TEXT_START, REGS, mem));
    SequentialResult(mem);
    assert j.At(0) == j.start;
  }

  // The doubled register is 10 on the sequential machine; the pipeline doubles the
  // address to which it has just been stored.
  lemma StoreForwardsItsAddress(mem: Memory)
    ensures var j := Job(STORE_THEN_READ, S.Machine(TEXT_START, REGS, mem));
      && j.SoundBefore(1) && j.Live(1) && !j.OperandsForwarded(1)
      && After(j, 6).regs[3] == 2 * DATA_START
      && j.At(2).regs[3] == 10
  {
    hide After, S.Value, S.Run, S.Step, Job.SoundBefore, Run;
    var j := Job(STORE_THEN_READ, S.Machine(TEXT_START, REGS, mem));
    SequentialResult(mem);
    StoreFacts(mem);
    assert j.Bubbles(0) == 0;
    assert j.RetireCycle(1) == 6;
    assert j.Poisons(0, 1) && j.Poison(0) == DATA_START;
    assert j.ValueSeen(1) == 2 * DATA_START;
    RetiresSeen(j, 1);
  }

  // ---- A branch out of the text, taken as predicted

  // beq $0, $0, to the next instruction; beq $0, $0, past the end; two more
  const ONWARD := Instruction(0x4, 0, 0, 0, 0, 0, 0, 0)
  const EXIT := Instruction(0x4, 0, 0, 0, 0, 0, 2, 0)
  const BRANCH_OUT: Program := [ONWARD, EXIT, DOUBLE, DOUBLE]

  lemma ExitRun(mem: Memory)
    ensures var j := Job(BRANCH_OUT, S.Machine(TEXT_START, REGS, mem));
      && j.At(1) == S.Machine(TEXT_START + 4, REGS, mem)
      && j.At(2) == S.Machine(TEXT_START + 16, REGS, mem)
  {
    var j := Job(BRANCH_OUT, S.Machine(TEXT_START, REGS, mem));
    assert j.At(0) == j.start;
    assert j.At(1) == S.Step(j.program, j.start);
    assert j.At(2) == S.Step(j.program, j.At(1));
  }

  // The second branch ends the program, but the pipeline has not halted when it is
  // written back: it goes on with the last instruction.
  lemma BranchOutRunsOn(mem: Memory)
    ensures var j := Job(BRANCH_OUT, S.Machine(TEXT_START, REGS, mem));
      && j.Sound() && j.Live(1) && !j.Live(2)
      && After(j, j.RetireCycle(1)).run
  {
    hide After, Job.RetireCycle;
    var j := Job(BRANCH_OUT, S.Machine(TEXT_START, REGS, mem));
    ExitRun(mem);
    forall k: nat | j.Live(k)
      ensures k < 2 && j.Clean(k)
    {
      if k >= 2 {
        S.LiveBefore(j.program, j.start, 2, k);
      }
      assert k == 0 || k == 1;
    }
    assert j.Outcome(0) && j.Outcome(1) && j.Predictor(1);
    assert !j.LoadUse(0);
    assert j.ResumePc(1) == TEXT_START + 12;
    HaltsOnTimeExactly(j, 1);
  }

  // ---- The link of a jal that is squashed

  // beq $0, $0, over the jal; jal; add $3, $1, $1
  const OVER := Instruction(0x4, 0, 0, 0, 0, 0, 1, 0)
  const LINK := Instruction(0x3, 0, 0, 0, 0, 0, 0, 0)
  const JUMP_OVER: Program := [OVER, LINK, DOUBLE]

  lemma LinkDecoded(mem: Memory)
    ensures var s := Run(JUMP_OVER, Start(REGS, mem), 3);
      s.regs[31] == TEXT_START + 8
  {
    var p := JUMP_OVER;
    var s0 := Start(REGS, mem);
    assert Run(p, s0, 0) == s0;
    var s1 := Run(p, s0, 1);
    assert s1 == Cycle(p, s0);
    assert s1.pipe == Pipe(TEXT_START, 0, 0, 0, 0) && s1.fetch.pc == TEXT_START + 4 && s1.run && !s1.flags.hazard;
    assert s1.exMem == ExMem(0, 0, false, 0, NO_MEM, NO_WB) && !s1.flags.prediction;
    var s2 := Run(p, s0, 2);
    assert s2 == Cycle(p, s1);
    assert s2.pipe == Pipe(TEXT_START + 4, TEXT_START, 0, 0, 0) && s2.run && !s2.flags.hazard && !s2.flags.prediction;
    assert s2.exMem == ExMem(0, 0, false, 0, NO_MEM, NO_WB) && s2.idEx.ex == ControlOf(OVER).ex;
    assert Run(p, s0, 3) == Cycle(p, s2);
    LinkWritten(s2);
  }

  lemma LinkWritten(s: State)
    requires s.pipe == Pipe(TEXT_START + 4, TEXT_START, 0, 0, 0) && !s.flags.hazard && !s.flags.prediction
    requires s.exMem == ExMem(0, 0, false, 0, NO_MEM, NO_WB) && s.idEx.ex == ControlOf(OVER).ex
    ensures Cycle(JUMP_OVER, s).regs[31] == TEXT_START + 8
  {
    var x := BackEnd(s);
    assert x.pipe == Pipe(TEXT_START + 4, TEXT_START + 4, TEXT_START, 0, 0);
  }

  lemma {:induction false} LinkStays(mem: Memory, n: nat)
    requires n >= 3
    ensures Run(JUMP_OVER, Start(REGS, mem), n).regs[31] != 0
  {
    hide Cycle, Path, StoreWrites, RetirementWrites, Links;
    if n == 3 {
      LinkDecoded(mem);
    } else {
      LinkStays(mem, n - 1);
      OnlyRetirementWrites(JUMP_OVER, REGS, mem, n - 1, 31);
      OnlyLinksTo31(Run(JUMP_OVER, Start(REGS, mem), n - 1), Run(JUMP_OVER, Start(REGS, mem), n));
    }
  }

  lemma OnlyLinksTo31(s: State, t: State)
    requires PipeInText(JUMP_OVER, t.pipe)
    ensures !RetirementWrites(JUMP_OVER, s, t, 31)
    ensures Links(JUMP_OVER, t, 31) ==> t.regs[31] != 0
  {
  }

  // The branch goes over the jal, which the sequential machine never executes; the
  // pipeline has decoded it by then, and keeps its link.
  lemma SquashedLinkStays(mem: Memory, n: nat)
    requires n >= 3
    ensures var j := Job(JUMP_OVER, S.Machine(TEXT_START, REGS, mem));
      && After(j, 3).regs[31] == TEXT_START + 8 && After(j, n).regs[31] != 0
      && j.Live(1) && !j.Live(2) && j.At(1).pc == TEXT_START + 8 && j.At(2).regs[31] == 0
  {
    hide Run;
    var j := Job(JUMP_OVER, S.Machine(TEXT_START, REGS, mem));
    LinkDecoded(mem);
    LinkStays(mem, n);
    assert j.At(0) == j.start;
    assert j.At(1) == S.Step(j.program, j.start);
    assert j.At(1).pc == TEXT_START + 8 && j.At(1).regs == REGS;
    assert j.At(2) == S.Step(j.program, j.At(1));
  }
}

// The pipeline refines the sequential machine: what every cycle keeps.
module Refinement {
  import opened Mips
  import S = Sequential
  import opened AluAgreement
  import opened Pipeline
  import opened Schedule

  // ---- One sequential step, seen from the job

  lemma StepFacts(j: Job, k: nat)
    requires j.Live(k) && j.Known(k)
    requires IsLoad(j.Instr(k)) || IsStore(j.Instr(k)) ==> InMemory(S.EffectiveAddress(j.Instr(k), j.Rs(k)))
    ensures var i, s, t := j.Instr(k), j.At(k), j.At(k + 1);
      && t.regs == (if Writes(i) then s.regs[Dest(i) := t.regs[Dest(i)]] else s.regs)
      && (IsArithmetic(i) ==> t.regs[Dest(i)] == S.Value(i, j.Rs(k), j.Rt(k)))
      && (IsLoad(i) ==> t.regs[Dest(i)] == ReadWord(s.mem, S.EffectiveAddress(i, j.Rs(k))))
      && t.mem == (if IsStore(i) then WriteWord(s.mem, S.EffectiveAddress(i, j.Rs(k)), j.Rt(k)) else s.mem)
      && t.pc == (if j.Outcome(k) then BranchTarget(s.pc, i.imm) else Next(s.pc))
  {
  }

  lemma CleanAt(j: Job, k: nat, m: nat)
    requires j.SoundBefore(m) && k < m && j.Live(k)
    ensures j.Supported(k) && j.OperandsForwarded(k) && j.At(k + 1).regs[0] == 0
  {
    assert j.Clean(k);
  }

  lemma KnownAt(j: Job, k: nat, m: nat)
    requires j.SoundBefore(m) && k <= m && j.Live(k)
    ensures j.Known(k)
  {
    if k < m {
      CleanAt(j, k, m);
    }
  }

  // The pc after an instruction that is no jump.
  lemma PcAfter(j: Job, k: nat)
    requires j.Live(k) && j.Known(k)
    ensures j.At(k + 1).pc == if j.Outcome(k) then BranchTarget(j.At(k).pc, j.Instr(k).imm) else Next(j.At(k).pc)
  {
    hide S.Value;
  }

  lemma SoundAt(j: Job, k: nat)
    requires j.Sound()
    ensures j.SoundBefore(k)
  {
    if j.Live(k) {
      assert j.Clean(k);
    }
  }

  lemma SoundEarlier(j: Job, k: nat, m: nat)
    requires j.SoundBefore(m) && k <= m
    ensures j.SoundBefore(k)
  {
    hide Job.Clean, Job.Supported;
    if k < m && j.Live(k) {
      CleanAt(j, k, m);
    }
  }

  // ---- The invariant

  // Instructions s.retired, Executing(s) and so on are the next to be written
  // back, the next to leave EX and so on, in program order.
  function InMem(s: State): nat { s.retired }

  function InEx(s: State): nat { s.retired + if s.pipe.m != 0 then 1 else 0 }

  function InId(s: State): nat { InEx(s) + if s.pipe.x != 0 then 1 else 0 }

  function InIf(s: State): nat { InId(s) + if s.pipe.d != 0 then 1 else 0 }

  // ID hands its instruction to EX in the next cycle.
  ghost predicate Issues(s: State) {
    !Mispredicted(s) && !s.flags.hazard && s.pipe.d != 0
  }

  // The instruction that ID decodes in the next cycle, unless it is on a wrong path.
  ghost function Reaches(s: State): nat { InId(s) + if Issues(s) then 1 else 0 }

  function Stall(s: State): nat { if s.flags.hazard then 1 else 0 }

  ghost predicate Holds(j: Job, k: nat, pc: Word) { j.Live(k) && j.At(k).pc == pc }

  ghost predicate Completed(j: Job, k: nat, l: MemWb)
    requires j.Live(k)
  {
    var i := j.Instr(k);
    && l.dest == Dest(i) && l.wb == ControlOf(i).wb
    && Result(l) == (if Writes(i) then j.At(k + 1).regs[Dest(i)] else j.Poison(k))
  }

  ghost predicate Finished(j: Job, k: nat, l: ExMem)
    requires j.Live(k)
  {
    var i := j.Instr(k);
    && l.dest == Dest(i) && l.mem == ControlOf(i).mem && l.wb == ControlOf(i).wb
    && (IsArithmetic(i) ==> l.aluOut == j.At(k + 1).regs[Dest(i)])
    && (IsLoad(i) ==> l.aluOut == S.EffectiveAddress(i, j.Rs(k)))
    && (!Writes(i) ==> l.aluOut == j.Poison(k))
    && (IsBranch(i) ==> l.brTake == j.Outcome(k) && l.brTarget == BranchTarget(j.At(k).pc, i.imm))
  }

  ghost predicate Latched(i: Instruction, l: IdEx, regs: RegFile) {
    && l.rs == i.rs && l.rt == i.rt && l.dest == Dest(i)
    && l.ex == ControlOf(i).ex && l.mem == ControlOf(i).mem && l.wb == ControlOf(i).wb
    && l.reg1 == regs[i.rs] && l.reg2 == regs[i.rt]
    && (if i.opcode == 0x0 then l.func == i.func && l.sh == i.shamt else l.imm == i.imm)
  }

  ghost predicate Architectural(j: Job, s: State) {
    && s.regs == j.At(s.retired).regs
    && s.mem == j.At(InEx(s)).mem
    && s.flags.prediction == j.Predictor(InEx(s))
    && !s.fault
  }

  ghost predicate WbRight(j: Job, n: nat, s: State) {
    if s.pipe.w == 0 then s.retired == 0 || (j.Live(s.retired - 1) && j.RetireCycle(s.retired - 1) < n)
    else s.retired > 0 && Holds(j, s.retired - 1, s.pipe.w) && j.RetireCycle(s.retired - 1) == n
  }

  ghost predicate MemRight(j: Job, n: nat, s: State) {
    if s.pipe.m == 0 then s.memWb == MemWb(0, 0, 0, NO_WB)
    else Holds(j, InMem(s), s.pipe.m) && Completed(j, InMem(s), s.memWb) && j.RetireCycle(InMem(s)) == n + 1
  }

  ghost predicate ExRight(j: Job, n: nat, s: State) {
    if s.pipe.x == 0 then s.exMem == ExMem(0, 0, false, 0, NO_MEM, NO_WB)
    else Holds(j, InEx(s), s.pipe.x) && Finished(j, InEx(s), s.exMem) && j.RetireCycle(InEx(s)) == n + 2
  }

  ghost predicate HazardRight(p: Program, s: State)
    requires PipeInText(p, s.pipe)
  {
    s.flags.hazard <==> s.pipe.d != 0 && LoadUseHazard(s.exMem, Fetch(p, s.pipe.d))
  }

  ghost predicate IdRight(j: Job, n: nat, s: State) {
    s.pipe.d != 0 ==>
      && Holds(j, InId(s), s.pipe.d)
      && Latched(j.Instr(InId(s)), s.idEx, s.regs)
      && j.RetireCycle(InId(s)) == n + 3 + Stall(s)
  }

  // ID holds a branch that is predicted taken: the target is fetched next.
  ghost predicate Redirected(j: Job, s: State) {
    s.pipe.d != 0 && j.Branches(InId(s)) && s.flags.prediction
  }

  ghost predicate RedirectRight(j: Job, s: State)
    requires Redirected(j, s)
  {
    var target := BranchTarget(s.pipe.d, j.Instr(InId(s)).imm);
    && s.fetch.pc == target
    && (s.flags.hazard ==> s.fetch.ifPc == Next(s.pipe.d))
    && (!s.flags.hazard ==>
          || InText(j.program, target)
          || s.fetch.ifPc == j.ResumePc(InId(s))
          || (!InText(j.program, s.fetch.ifPc) && !InText(j.program, j.ResumePc(InId(s)))))
  }

  ghost predicate AfterBranch(j: Job, k: nat) { k == 0 || j.Branches(k - 1) }

  // The instruction in IF, or the one to be fetched next, continues the program.
  ghost predicate FetchRight(j: Job, n: nat, s: State) {
    var k := InIf(s);
    if s.pipe.f != 0 then
      && Holds(j, k, s.pipe.f)
      && j.RetireCycle(k) == n + 4 + Stall(s) + (if s.pipe.d != 0 && j.LoadUse(k - 1) then 1 else 0)
      && s.fetch.pc == s.fetch.ifPc == (if s.flags.hazard then s.pipe.f else Next(s.pipe.f))
      && (s.pipe.d == 0 ==> AfterBranch(j, k))
    else if j.Live(k) then
      && s.fetch.pc == j.At(k).pc
      && s.pipe.x == s.pipe.d == 0
      && j.RetireCycle(k) == n + 5
      && AfterBranch(j, k)
      && (s.pipe.m != 0 || (n == 0 && s.pipe.w == 0))
    else
      || s.pipe.x == s.pipe.d == s.pipe.m == 0
      || (!InText(j.program, s.fetch.pc) && (!InText(j.program, s.fetch.ifPc) || s.pipe.x == s.pipe.d == 0))
  }

  ghost predicate FrontRight(j: Job, n: nat, s: State) {
    && IdRight(j, n, s)
    && (Redirected(j, s) ==> RedirectRight(j, s))
    && (!Redirected(j, s) && !(s.pipe.d != 0 && j.Mispredicts(InId(s))) ==> FetchRight(j, n, s))
  }

  ghost predicate Invariant(j: Job, n: nat, s: State) {
    && PipeInText(j.program, s.pipe)
    && HazardRight(j.program, s)
    && Architectural(j, s)
    && WbRight(j, n, s)
    && MemRight(j, n, s)
    && ExRight(j, n, s)
    && (!Mispredicted(s) ==> FrontRight(j, n, s))
    && s.run == !(s.pipe == Pipe(0, 0, 0, 0, s.pipe.w) && s.pipe.w != 0)
    && (s.pipe == Pipe(0, 0, 0, 0, 0) ==> s.retired == 0)
  }

  // ---- Initially

  lemma StartInvariant(j: Job)
    requires j.StartsRight()
    ensures Invariant(j, 0, Start(j.start.regs, j.start.mem))
  {
    if !InText(j.program, TEXT_START) {
      assert |j.program| == 0;
    }
  }

  // ---- One cycle, stage by stage. Each predicate says what holds of the state t
  // that a stage leaves in a cycle that began in s.

  ghost predicate WroteBack(j: Job, s: State, t: State) {
    && t.regs == j.At(InEx(s)).regs
    && t.retired == InEx(s)
    && t.pipe == Shifted(s.pipe, s.flags.hazard)
    && t.flags == Flags(s.flags.prediction, true, false)
    && t.fetch == s.fetch.(source := FromIf)
    && t.fwd == Forward(s.exMem.dest, s.exMem.aluOut, s.memWb.dest, Result(s.memWb))
    && t.idEx == s.idEx && t.exMem == s.exMem && t.memWb == s.memWb
    && t.mem == s.mem && t.run && !t.fault
  }

  lemma WriteBackStep(j: Job, n: nat, s: State)
    requires j.SoundBefore(InId(s)) && s.run
    requires Architectural(j, s) && MemRight(j, n, s)
    requires s.pipe == Pipe(0, 0, 0, 0, s.pipe.w) ==> s.retired == 0
    ensures WroteBack(j, s, WriteBack(Advance(s)))
  {
    if s.pipe.m != 0 {
      CleanAt(j, s.retired, InId(s));
      StepFacts(j, s.retired);
    }
  }

  ghost predicate Accessed(j: Job, s: State, t: State) {
    && t.regs == j.At(InEx(s)).regs
    && t.mem == j.At(InId(s)).mem
    && t.retired == InEx(s)
    && t.flags.prediction == j.Predictor(InId(s))
    && !t.flags.hazard
    && t.fwd == Forward(s.exMem.dest, s.exMem.aluOut, s.memWb.dest, Result(s.memWb))
    && t.idEx == s.idEx && t.exMem == s.exMem
    && t.run && !t.fault
    && (if s.pipe.x == 0 then t.memWb == MemWb(0, 0, 0, NO_WB)
        else j.Live(InEx(s)) && Completed(j, InEx(s), t.memWb))
    && (if Mispredicted(s) then
          && s.pipe.x != 0
          && t.pipe == Pipe(0, 0, 0, s.pipe.x, s.pipe.m)
          && !t.flags.predictSuccess
          && NextFetch(t.fetch) == j.At(InId(s)).pc
          && t.fetch.source != FromJump
        else
          && t.pipe == Shifted(s.pipe, s.flags.hazard)
          && t.flags.predictSuccess
          && t.flags.prediction == s.flags.prediction
          && t.fetch == s.fetch.(source := FromIf))
  }

  // The memory operation of the instruction now in MEM.
  lemma AccessStep(j: Job, k: nat, t: State)
    requires j.Live(k) && j.Supported(k)
    requires Finished(j, k, t.exMem) && t.regs == j.At(k).regs && t.mem == j.At(k).mem
    ensures !Faults(t)
    ensures AccessMemory(t).mem == j.At(k + 1).mem && Completed(j, k, AccessMemory(t).memWb)
  {
    StepFacts(j, k);
  }

  lemma MemStep(j: Job, n: nat, s: State, t: State)
    requires j.SoundBefore(InId(s))
    requires Architectural(j, s) && ExRight(j, n, s)
    requires WroteBack(j, s, t)
    ensures Accessed(j, s, MemStage(t))
  {
    hide Job.Poison, Job.RetireCycle, Job.Predictor, S.Run, MemStage, Squash, Accessed, Completed;
    if s.pipe.x == 0 {
      MemStepIdle(j, s, t);
    } else {
      CleanAt(j, InEx(s), InId(s));
      SquashStep(j, InEx(s), t);
      if Mispredicted(s) {
        MemStepSquashing(j, s, t);
      } else {
        MemStepPassing(j, s, t);
      }
    }
  }

  lemma MemStepIdle(j: Job, s: State, t: State)
    requires s.pipe.x == 0 && !s.exMem.mem.branch
    requires WroteBack(j, s, t) && t.mem == j.At(InEx(s)).mem && t.flags.prediction == j.Predictor(InEx(s))
    ensures Accessed(j, s, MemStage(t))
  {
  }

  lemma MemStepPassing(j: Job, s: State, t: State)
    requires s.pipe.x != 0 && j.Live(InEx(s)) && j.Supported(InEx(s)) && Finished(j, InEx(s), s.exMem)
    requires WroteBack(j, s, t) && t.mem == j.At(InEx(s)).mem && !Mispredicted(s)
    requires j.Predictor(InId(s)) == t.flags.prediction
    ensures Accessed(j, s, MemStage(t))
  {
    AccessStep(j, InEx(s), t);
  }

  lemma MemStepSquashing(j: Job, s: State, t: State)
    requires s.pipe.x != 0 && j.Live(InEx(s)) && j.Supported(InEx(s)) && Finished(j, InEx(s), s.exMem)
    requires WroteBack(j, s, t) && t.mem == j.At(InEx(s)).mem && Mispredicted(s)
    requires j.Predictor(InId(s)) != t.flags.prediction
    requires NextFetch(Squash(t).fetch) == j.At(InId(s)).pc
    ensures Accessed(j, s, MemStage(t))
  {
    AccessStep(j, InEx(s), Squash(t));
  }

  lemma SquashStep(j: Job, k: nat, t: State)
    requires j.Live(k) && j.Supported(k) && Finished(j, k, t.exMem) && t.pipe.m == j.At(k).pc
    requires t.flags.prediction == j.Predictor(k)
    ensures Mispredicted(t) ==> NextFetch(Squash(t).fetch) == j.At(k + 1).pc
    ensures j.Predictor(k + 1) == if Mispredicted(t) then !t.flags.prediction else t.flags.prediction
  {
    StepFacts(j, k);
  }

  // ---- Forwarding

  lemma {:induction false} RegisterZero(j: Job, k: nat)
    requires j.SoundBefore(k)
    ensures j.At(k).regs[0] == 0
  {
    if k > 0 {
      if j.Live(k - 1) {
        CleanAt(j, k - 1, k);
      } else {
        RegisterZero(j, k - 1);
      }
    }
  }

  // Instruction q leaves register r alone.
  lemma Untouched(j: Job, q: nat, r: Register)
    requires j.Live(q) && j.Supported(q) && j.At(q).regs[0] == j.At(q + 1).regs[0]
    requires r == 0 || Dest(j.Instr(q)) != r || !Writes(j.Instr(q))
    ensures j.At(q + 1).regs[r] == j.At(q).regs[r]
  {
    StepFacts(j, q);
  }

  // Past EX, a value comes from MEM or from the register file.
  lemma ForwardedFromMem(j: Job, s: State, k: nat, r: Register, fwd: Forward)
    requires j.SoundBefore(k) && k == s.retired + (if s.pipe.m != 0 then 1 else 0)
    requires s.regs == j.At(s.retired).regs
    requires if s.pipe.m == 0 then s.memWb.dest == 0 else j.Live(s.retired) && Completed(j, s.retired, s.memWb)
    requires fwd.wbReg == s.memWb.dest && fwd.wbValue == Result(s.memWb)
    requires fwd.exReg != r || r == 0
    ensures Forwarded(fwd, r, s.regs[r])
      == if s.pipe.m != 0 && r != 0 && j.Poisons(s.retired, r) then j.Poison(s.retired) else j.At(k).regs[r]
  {
    hide Job.Poison, S.Run;
    if s.pipe.m != 0 {
      CleanAt(j, s.retired, k);
      RegisterZero(j, s.retired);
      if r == 0 || Dest(j.Instr(s.retired)) != r {
        Untouched(j, s.retired, r);
      }
    }
  }

  // EX holds the instruction before; it names r, or r comes from further ahead.
  lemma ForwardedFromEx(j: Job, s: State, k: nat, r: Register, fwd: Forward)
    requires j.SoundBefore(k + 1) && k == s.retired + (if s.pipe.m != 0 then 1 else 0)
    requires s.regs == j.At(s.retired).regs
    requires if s.pipe.m == 0 then s.memWb.dest == 0 else j.Live(s.retired) && Completed(j, s.retired, s.memWb)
    requires j.Live(k) && Finished(j, k, s.exMem)
    requires fwd == Forward(s.exMem.dest, s.exMem.aluOut, s.memWb.dest, Result(s.memWb))
    requires r != 0 && Dest(j.Instr(k)) == r ==> !IsLoad(j.Instr(k))
    ensures Forwarded(fwd, r, s.regs[r])
      == if r != 0 && j.Poisons(k, r) then j.Poison(k)
         else if s.pipe.m != 0 && r != 0 && Dest(j.Instr(k)) != r && j.Poisons(s.retired, r) then j.Poison(s.retired)
         else j.At(k + 1).regs[r]
  {
    hide Job.Poison, S.Run;
    CleanAt(j, k, k + 1);
    if r == 0 || Dest(j.Instr(k)) != r {
      RegisterZero(j, k);
      ForwardedFromMem(j, s, k, r, fwd);
      Untouched(j, k, r);
    }
  }

  lemma Spacing(j: Job, k: nat)
    requires k > 0
    ensures j.RetireCycle(k) == j.RetireCycle(k - 1) + 1 + j.Bubbles(k - 1)
  {
  }

  lemma RetireNext(j: Job, k: nat)
    ensures j.RetireCycle(k + 1) == j.RetireCycle(k) + 1 +
      if j.Mispredicts(k) then 3 else if j.Outcome(k) || j.LoadUse(k) then 1 else 0
  {
  }

  // How far ahead of the instruction in ID the two before it are.
  lemma Distances(j: Job, n: nat, s: State)
    requires WbRight(j, n, s) && MemRight(j, n, s) && ExRight(j, n, s) && j.RetireCycle(InId(s)) == n + 3
    ensures s.pipe.x != 0 ==> j.Bubbles(InId(s) - 1) == 0
    ensures s.pipe.x == 0 && s.pipe.m != 0 ==> j.Bubbles(InId(s) - 1) == 1
    ensures s.pipe.x == 0 && s.pipe.m == 0 && s.retired > 0 ==> j.Bubbles(InId(s) - 1) > 1
    ensures s.pipe.x != 0 && s.pipe.m != 0 ==> j.Bubbles(InId(s) - 2) == 0
    ensures s.pipe.x != 0 && s.pipe.m == 0 && s.retired > 0 ==> j.Bubbles(InId(s) - 2) > 0
  {
    hide Job.Bubbles, Completed, Finished, Job.RetireCycle, S.Run;
    var k := InId(s);
    if k > 0 {
      Spacing(j, k);
    }
    if k > 1 {
      Spacing(j, k - 1);
    }
  }

  // The same two instructions, and the ones that may hand over a false value.
  lemma FalseSources(j: Job, n: nat, s: State, r: Register)
    requires WbRight(j, n, s) && MemRight(j, n, s) && ExRight(j, n, s) && j.RetireCycle(InId(s)) == n + 3
    requires j.Live(InId(s))
    ensures j.FromPrevious(InId(s), r)
      == (r != 0 && if s.pipe.x != 0 then j.Poisons(InEx(s), r) else s.pipe.m != 0 && j.Poisons(s.retired, r))
    ensures j.FromBeforePrevious(InId(s), r)
      == (r != 0 && s.pipe.x != 0 && s.pipe.m != 0 && Dest(j.Instr(InEx(s))) != r && j.Poisons(s.retired, r))
  {
    hide Job.Bubbles, Job.Poisons, Job.RetireCycle, Completed, Finished, S.Run;
    Distances(j, n, s);
  }

  // The value that EX uses for register r of instruction InId(s), right or wrong.
  lemma OperandExact(j: Job, n: nat, s: State, r: Register, fwd: Forward)
    requires j.SoundBefore(InId(s))
    requires s.regs == j.At(s.retired).regs && WbRight(j, n, s) && MemRight(j, n, s) && ExRight(j, n, s)
    requires fwd == Forward(s.exMem.dest, s.exMem.aluOut, s.memWb.dest, Result(s.memWb))
    requires j.Live(InId(s)) && j.RetireCycle(InId(s)) == n + 3
    requires s.pipe.x != 0 && IsLoad(j.Instr(InEx(s))) ==> s.exMem.dest != r
    ensures Forwarded(fwd, r, s.regs[r]) == j.OperandSeen(InId(s), r)
  {
    hide Job.Bubbles, Job.FromPrevious, Job.FromBeforePrevious, Job.RetireCycle, Job.Poison, Job.Poisons, S.Run;
    FalseSources(j, n, s, r);
    if s.pipe.x == 0 {
      ForwardedFromMem(j, s, InId(s), r, fwd);
    } else {
      CleanAt(j, InEx(s), InId(s));
      ForwardedFromEx(j, s, InEx(s), r, fwd);
    }
  }

  // ---- EX

  lemma SameResult(i: Instruction, a: Word, b: Word, a': Word, b': Word, func: nat, sh: Register)
    requires IsArithmetic(i) && SameArithmetic(i, a, b)
    requires UsesRs(i) ==> a' == a
    requires UsesRt(i) ==> b' == b
    requires i.opcode == 0x0 ==> func == i.func && sh == i.shamt
    ensures Alu(a', SecondOperand(i, b'), i.opcode, func, sh) == S.Value(i, a, b)
  {
    ArithmeticAgrees(i, a, b);
  }

  lemma ExecuteStep(j: Job, k: nat, t: State)
    requires j.Live(k) && j.Supported(k)
    requires t.pipe.x == j.At(k).pc
    requires var i, l := j.Instr(k), t.idEx;
      && l.rs == i.rs && l.rt == i.rt && l.dest == Dest(i)
      && l.ex == ControlOf(i).ex && l.mem == ControlOf(i).mem && l.wb == ControlOf(i).wb
      && (if i.opcode == 0x0 then l.func == i.func && l.sh == i.shamt else l.imm == i.imm)
      && (UsesRs(i) ==> Forwarded(t.fwd, i.rs, l.reg1) == j.Rs(k))
      && (UsesRt(i) ==> Forwarded(t.fwd, i.rt, l.reg2) == j.Rt(k))
    ensures !IsJumpLatch(t.idEx) && (IsBranchLatch(t.idEx) <==> j.Branches(k))
    ensures Finished(j, k, Executed(t))
  {
    var i, l := j.Instr(k), t.idEx;
    if IsArithmetic(i) {
      StepFacts(j, k);
      SameResult(i, j.Rs(k), j.Rt(k), Forwarded(t.fwd, i.rs, l.reg1), Forwarded(t.fwd, i.rt, l.reg2), l.func, l.sh);
    }
  }

  // EX has thrown away the instruction behind a branch that is predicted taken.
  ghost predicate TakesBranch(j: Job, s: State) { Issues(s) && Redirected(j, s) }

  ghost predicate Ran(j: Job, s: State, t: State) {
    && t.regs == j.At(InEx(s)).regs
    && t.mem == j.At(InId(s)).mem
    && t.retired == InEx(s)
    && t.flags.prediction == j.Predictor(InId(s))
    && !t.flags.hazard
    && t.run && !t.fault
    && (if s.pipe.x == 0 then t.memWb == MemWb(0, 0, 0, NO_WB)
        else j.Live(InEx(s)) && Completed(j, InEx(s), t.memWb))
    && t.pipe.m == s.pipe.x && t.pipe.w == s.pipe.m
    && (if Mispredicted(s) then
          && s.pipe.x != 0
          && t.pipe.f == t.pipe.d == t.pipe.x == 0
          && !t.flags.predictSuccess
          && NextFetch(t.fetch) == j.At(InId(s)).pc
          && t.fetch.source != FromJump
        else
          && t.pipe.f == s.pipe.f
          && t.pipe.d == (if s.flags.hazard then s.pipe.d else if TakesBranch(j, s) then 0 else s.pipe.f)
          && t.pipe.x == (if s.flags.hazard then 0 else s.pipe.d)
          && t.flags.predictSuccess
          && t.flags.prediction == s.flags.prediction
          && t.fetch == s.fetch.(source := FromIf))
    && (if Issues(s) then j.Live(InId(s)) && Finished(j, InId(s), t.exMem)
        else t.exMem == ExMem(0, 0, false, 0, NO_MEM, NO_WB))
  }

  lemma ExStepIdle(j: Job, s: State, t: State)
    requires Accessed(j, s, t) && !Issues(s)
    ensures Ran(j, s, ExStage(t))
  {
  }

  lemma ExStepIssuing(j: Job, s: State, t: State)
    requires Accessed(j, s, t) && Issues(s) && Holds(j, InId(s), s.pipe.d)
    requires !IsJumpLatch(t.idEx) && (IsBranchLatch(t.idEx) <==> j.Branches(InId(s)))
    requires Finished(j, InId(s), Executed(t))
    requires IsBranchLatch(t.idEx) && s.flags.prediction ==> s.fetch.pc == BranchTarget(t.pipe.x, t.idEx.imm)
    ensures Ran(j, s, ExStage(t))
  {
  }

  lemma ExStep(j: Job, n: nat, s: State, t: State)
    requires j.SoundBefore(Reaches(s)) && Invariant(j, n, s)
    requires Accessed(j, s, t)
    ensures Ran(j, s, ExStage(t))
  {
    if !Issues(s) {
      ExStepIdle(j, s, t);
    } else {
      OperandsRight(j, n, s, t.fwd);
      CleanAt(j, InId(s), Reaches(s));
      ExecuteStep(j, InId(s), t);
      ExStepIssuing(j, s, t);
    }
  }

  // The two operands of the instruction that ID issues.
  lemma OperandsSeen(j: Job, n: nat, s: State, fwd: Forward)
    requires j.SoundBefore(InId(s)) && Invariant(j, n, s) && Issues(s)
    requires fwd == Forward(s.exMem.dest, s.exMem.aluOut, s.memWb.dest, Result(s.memWb))
    ensures var i := j.Instr(InId(s));
      && Forwarded(fwd, i.rs, s.idEx.reg1) == j.OperandSeen(InId(s), i.rs)
      && Forwarded(fwd, i.rt, s.idEx.reg2) == j.OperandSeen(InId(s), i.rt)
  {
    hide Job.FromPrevious, Job.FromBeforePrevious, Job.OperandSeen, Job.SoundBefore;
    var i := j.Instr(InId(s));
    OperandExact(j, n, s, i.rs, fwd);
    OperandExact(j, n, s, i.rt, fwd);
  }

  lemma OperandsRight(j: Job, n: nat, s: State, fwd: Forward)
    requires j.SoundBefore(Reaches(s)) && Invariant(j, n, s) && Issues(s)
    requires fwd == Forward(s.exMem.dest, s.exMem.aluOut, s.memWb.dest, Result(s.memWb))
    ensures var i := j.Instr(InId(s));
      && (UsesRs(i) ==> Forwarded(fwd, i.rs, s.idEx.reg1) == j.Rs(InId(s)))
      && (UsesRt(i) ==> Forwarded(fwd, i.rt, s.idEx.reg2) == j.Rt(InId(s)))
  {
    hide Job.FromPrevious, Job.FromBeforePrevious;
    CleanAt(j, InId(s), Reaches(s));
    SoundEarlier(j, InId(s), Reaches(s));
    OperandsSeen(j, n, s, fwd);
  }

  // ---- ID

  // The number of the instruction that ID decodes once EX has run.
  function ToDecode(s: State, t: State): nat { InId(s) + if t.pipe.x != 0 then 1 else 0 }

  ghost predicate Stalls(p: Program, t: State)
    requires PipeInText(p, t.pipe)
  {
    t.pipe.d != 0 && LoadUseHazard(t.exMem, Fetch(p, t.pipe.d))
  }

  // Behind a branch that EX has just found mispredicted, nothing is promised.
  lemma MispredictionSeen(j: Job, s: State, t: State)
    requires Ran(j, s, t)
    ensures Mispredicted(t) <==> Issues(s) && j.Mispredicts(InId(s))
  {
  }

  lemma FetchedBehind(j: Job, n: nat, s: State, t: State)
    requires Invariant(j, n, s) && Ran(j, s, t) && !Mispredicted(t)
    requires !Mispredicted(s) && !s.flags.hazard && !TakesBranch(j, s)
    ensures FetchRight(j, n, s)
  {
    MispredictionSeen(j, s, t);
  }

  lemma HazardIsLoadUse(j: Job, k: nat, l: ExMem)
    requires j.Live(k) && j.Live(k + 1) && Finished(j, k, l)
    ensures LoadUseHazard(l, j.Instr(k + 1)) <==> j.LoadUse(k)
  {
  }

  // The instruction that ID decodes next, unless it is on a wrong path.
  lemma NextInId(j: Job, n: nat, s: State, t: State)
    requires Invariant(j, n, s) && Ran(j, s, t) && !Mispredicted(t) && PipeInText(j.program, t.pipe)
    requires t.pipe.d != 0
    ensures Holds(j, ToDecode(s, t), t.pipe.d)
    ensures j.RetireCycle(ToDecode(s, t)) == n + 4 + if Stalls(j.program, t) then 1 else 0
  {
    hide Job.RetireCycle, Job.Bubbles;
    assert !Mispredicted(s);
    if !s.flags.hazard {
      FetchedBehind(j, n, s, t);
      if s.pipe.d != 0 {
        HazardIsLoadUse(j, InId(s), t.exMem);
      }
    }
  }

  ghost predicate Issued(j: Job, n: nat, s: State, t: State, u: State)
    requires PipeInText(j.program, t.pipe)
  {
    && u.regs == t.regs && u.mem == t.mem && u.retired == t.retired && u.run && !u.fault
    && u.pipe == t.pipe && u.memWb == t.memWb && u.exMem == t.exMem
    && u.flags == t.flags.(hazard := Stalls(j.program, t))
    && (t.pipe.d == 0 ==> u.fetch == t.fetch)
    && (t.pipe.d != 0 ==> u.fetch == Redirect(t, Fetch(j.program, t.pipe.d)))
    && (t.pipe.d != 0 && !Mispredicted(t) ==>
          && Holds(j, ToDecode(s, t), t.pipe.d)
          && Latched(j.Instr(ToDecode(s, t)), u.idEx, t.regs)
          && j.RetireCycle(ToDecode(s, t)) == n + 4 + Stall(u))
  }

  lemma DecodedLatch(l: IdEx, regs: RegFile, i: Instruction)
    requires !IsJump(i)
    ensures Latched(i, Decoded(l, regs, i), regs)
  {
  }

  lemma IdStep(j: Job, n: nat, s: State, t: State)
    requires j.SoundBefore(Reaches(s)) && Invariant(j, n, s) && Ran(j, s, t) && PipeInText(j.program, t.pipe)
    ensures Issued(j, n, s, t, IdStage(j.program, t))
  {
    hide Job.RetireCycle, Job.Bubbles, Invariant, Latched, Decoded, Redirect, Finished, Completed;
    if t.pipe.d != 0 {
      assert Fetch(j.program, t.pipe.d) in j.program;
      if !Mispredicted(t) {
        NextInId(j, n, s, t);
        KnownAt(j, ToDecode(s, t), Reaches(s));
        DecodedLatch(t.idEx, t.regs, j.Instr(ToDecode(s, t)));
      }
    }
  }

  // ---- IF

  // What IF leaves alone.
  ghost predicate SameBut(u: State, v: State) {
    && v.retired == u.retired && v.flags == u.flags && v.exMem == u.exMem
    && v.pipe == u.pipe.(f := v.pipe.f)
  }

  // The fetch unit when no stage has redirected it.
  ghost predicate FetchesOn(p: Program, u: State, v: State) {
    && SameBut(u, v)
    && (if InText(p, u.fetch.pc) then
          && v.pipe.f == u.fetch.pc
          && v.fetch.pc == v.fetch.ifPc == (if u.flags.hazard then u.fetch.ifPc else Next(u.fetch.pc))
        else
          v.pipe.f == 0 && v.fetch.pc == v.fetch.ifPc == u.fetch.ifPc)
  }

  lemma FetchOn(p: Program, u: State)
    requires Slot(p, u.pipe.f) && u.fetch.source == FromIf && u.flags.predictSuccess
    ensures FetchesOn(p, u, IfStage(p, u))
  {
  }

  // Behind a load-use stall: the held instruction in IF is fetched again.
  lemma FetchAfterStall(j: Job, n: nat, s: State, v: State)
    requires Invariant(j, n, s) && s.run && FetchRight(j, n, s) && s.flags.hazard && s.pipe.d != 0
    requires v.retired == InEx(s) && !v.flags.hazard
    requires v.pipe == Pipe(v.pipe.f, s.pipe.d, 0, s.pipe.x, s.pipe.m)
    requires if InText(j.program, s.fetch.pc)
             then v.pipe.f == s.fetch.pc && v.fetch.pc == v.fetch.ifPc == Next(s.fetch.pc)
             else v.pipe.f == 0 && v.fetch.pc == v.fetch.ifPc == s.fetch.ifPc
    ensures FetchRight(j, n + 1, v)
  {
    hide Job.RetireCycle, Job.LoadUse, Job.Mispredicts, Job.Branches, S.Run;
  }

  // Behind a branch correctly predicted taken: its target is in IF.
  lemma FetchAfterTaken(j: Job, n: nat, s: State, v: State)
    requires j.SoundBefore(Reaches(s)) && FrontRight(j, n, s) && TakesBranch(j, s) && !j.Mispredicts(InId(s))
    requires j.LeavesText(InId(s))
    requires s.flags.prediction == j.Predictor(InId(s))
    requires v.retired == InEx(s) && !v.flags.hazard
    requires v.pipe == Pipe(v.pipe.f, 0, s.pipe.d, s.pipe.x, s.pipe.m)
    requires if InText(j.program, s.fetch.pc)
             then v.pipe.f == s.fetch.pc && v.fetch.pc == v.fetch.ifPc == Next(s.fetch.pc)
             else v.pipe.f == 0 && v.fetch.pc == v.fetch.ifPc == s.fetch.ifPc
    ensures FetchRight(j, n + 1, v)
  {
    hide Job.RetireCycle, Job.Bubbles, Job.LoadUse, Job.Predictor, S.Run;
    var k := InId(s);
    CleanAt(j, k, Reaches(s));
    PcAfter(j, k);
    RetireNext(j, k);
  }

  // Behind an instruction that goes on to the next one.
  lemma FetchSequential(j: Job, n: nat, s: State, v: State, k: nat)
    requires s.pipe.f != 0 && s.fetch.pc == s.fetch.ifPc == Next(s.pipe.f)
    requires v.pipe.d == s.pipe.f && k == InId(v)
    requires Holds(j, k, v.pipe.d) && j.Known(k) && !j.Outcome(k) && !j.Mispredicts(k)
    requires j.RetireCycle(k) == n + 4 + Stall(v)
    requires if InText(j.program, s.fetch.pc)
             then v.pipe.f == s.fetch.pc
                  && v.fetch.pc == v.fetch.ifPc == (if v.flags.hazard then s.fetch.ifPc else Next(s.fetch.pc))
             else v.pipe.f == 0 && v.fetch.pc == v.fetch.ifPc == s.fetch.ifPc
    ensures FetchRight(j, n + 1, v)
  {
    hide Job.RetireCycle, Job.Bubbles, Job.LoadUse, Job.Predictor, S.Run;
    PcAfter(j, k);
    RetireNext(j, k);
  }

  // Nothing in ID.
  lemma FetchIdle(j: Job, n: nat, s: State, v: State)
    requires Invariant(j, n, s) && s.run && FetchRight(j, n, s) && s.pipe.f == 0 && !s.flags.hazard
    requires j.start.pc == TEXT_START
    requires v.retired == InEx(s) && !v.flags.hazard
    requires v.pipe == Pipe(v.pipe.f, 0, s.pipe.d, s.pipe.x, s.pipe.m)
    requires if InText(j.program, s.fetch.pc)
             then v.pipe.f == s.fetch.pc && v.fetch.pc == v.fetch.ifPc == Next(s.fetch.pc)
             else v.pipe.f == 0 && v.fetch.pc == v.fetch.ifPc == s.fetch.ifPc
    ensures FetchRight(j, n + 1, v)
  {
    hide Job.RetireCycle, Job.LoadUse, Job.Mispredicts, Job.Outcome, HazardRight, Completed, Finished, RedirectRight;
  }

  // After a misprediction: IF, ID and EX are empty and the right path is next.
  lemma FetchAfterSquash(j: Job, n: nat, s: State, v: State)
    requires ExRight(j, n, s) && Mispredicted(s) && s.flags.prediction == j.Predictor(InEx(s))
    requires v.retired == InEx(s) && !v.flags.hazard
    requires v.pipe == Pipe(0, 0, 0, s.pipe.x, s.pipe.m) && s.pipe.x != 0
    requires v.fetch.pc == j.At(InId(s)).pc
    ensures FetchRight(j, n + 1, v)
  {
    hide Job.RetireCycle, Job.Bubbles, Job.LoadUse, Job.Predictor, S.Run;
    RetireNext(j, InEx(s));
  }

  // ID holds a branch predicted taken, in each of the two ways it can get there.

  ghost predicate Redirects(p: Program, s: State, v: State, target: Word) {
    && v.fetch.pc == target
    && v.fetch.ifPc == if InText(p, s.fetch.pc) && !v.flags.hazard then Next(s.fetch.pc) else s.fetch.ifPc
  }

  lemma RedirectAfterStall(j: Job, s: State, v: State)
    requires Redirected(j, s) && RedirectRight(j, s) && s.flags.hazard
    requires InId(s) > 0 && j.LoadUse(InId(s) - 1)
    requires Redirected(j, v) && InId(v) == InId(s) && v.pipe.d == s.pipe.d && Holds(j, InId(s), s.pipe.d)
    requires !v.flags.hazard
    requires Redirects(j.program, s, v, BranchTarget(v.pipe.d, j.Instr(InId(v)).imm))
    ensures RedirectRight(j, v)
  {
  }

  lemma RedirectFresh(j: Job, n: nat, s: State, v: State)
    requires FetchRight(j, n, s) && s.pipe.f != 0 && !s.flags.hazard
    requires Redirected(j, v) && InId(v) == InIf(s) && v.pipe.d == s.pipe.f && Holds(j, InId(v), v.pipe.d)
    requires v.flags.hazard <==> s.pipe.d != 0 && j.LoadUse(InId(s))
    requires Redirects(j.program, s, v, BranchTarget(v.pipe.d, j.Instr(InId(v)).imm))
    ensures RedirectRight(j, v)
  {
    hide Job.RetireCycle, S.Run, Job.Mispredicts, Job.Outcome;
  }

  // ---- The whole front end

  ghost predicate CycleFacts(j: Job, n: nat, s: State, t: State, u: State) {
    && j.SoundBefore(Reaches(s)) && Invariant(j, n, s) && s.run
    && Ran(j, s, t) && PipeInText(j.program, t.pipe) && Issued(j, n, s, t, u)
    && !Mispredicted(t)
    && ExitsWell(j, s)
  }

  // A branch that leaves the text as predicted leaves it for good.
  ghost predicate ExitsWell(j: Job, s: State) {
    TakesBranch(j, s) ==> j.LeavesText(InId(s))
  }

  lemma StalledBefore(j: Job, n: nat, s: State)
    requires Invariant(j, n, s) && s.flags.hazard
    ensures s.pipe.x != 0 && s.pipe.d != 0 && !Mispredicted(s) && j.LoadUse(InEx(s))
  {
    hide Job.RetireCycle, Job.LoadUse, Job.Mispredicts, Job.Branches, Job.Outcome, S.Run, FetchRight, RedirectRight;
    HazardIsLoadUse(j, InEx(s), s.exMem);
  }

  lemma NotStalledNow(j: Job, n: nat, s: State, t: State, u: State)
    requires CycleFacts(j, n, s, t, u)
    ensures Issues(s) && t.pipe.d != 0 ==> (u.flags.hazard <==> j.LoadUse(InId(s)))
    ensures !Issues(s) ==> !u.flags.hazard
  {
    if Issues(s) && t.pipe.d != 0 {
      HazardIsLoadUse(j, InId(s), t.exMem);
    }
  }

  lemma RedirectShape(p: Program, s: State, u: State, t: State)
    requires t.pipe.d != 0 && InText(p, t.pipe.d) && Slot(p, u.pipe.f) && u.pipe == t.pipe
    requires t.flags.prediction && IsBranch(Fetch(p, t.pipe.d)) && t.flags.predictSuccess
    requires t.fetch == s.fetch.(source := FromIf)
    requires u.fetch == Redirect(t, Fetch(p, t.pipe.d)) && u.flags.predictSuccess
    ensures SameBut(u, IfStage(p, u))
    ensures Redirects(p, s, IfStage(p, u), BranchTarget(t.pipe.d, Fetch(p, t.pipe.d).imm))
  {
  }

  lemma RedirectStep(j: Job, n: nat, s: State, t: State, u: State)
    requires CycleFacts(j, n, s, t, u)
    requires t.pipe.d != 0 && j.Branches(ToDecode(s, t)) && t.flags.prediction
    ensures Redirected(j, IfStage(j.program, u)) && RedirectRight(j, IfStage(j.program, u))
  {
    hide Job.RetireCycle, Job.LoadUse, Job.Mispredicts, Job.Outcome, S.Run, Finished, Completed, Latched, IfStage,
      Redirect;
    var v := IfStage(j.program, u);
    RedirectShape(j.program, s, u, t);
    assert InId(v) == ToDecode(s, t);
    NotStalledNow(j, n, s, t, u);
    if s.flags.hazard {
      StalledBefore(j, n, s);
      RedirectAfterStall(j, s, v);
    } else {
      FetchedBehind(j, n, s, t);
      RedirectFresh(j, n, s, v);
    }
  }

  // No stage redirects the fetch.
  lemma FetchesNext(j: Job, n: nat, s: State, t: State, u: State)
    requires CycleFacts(j, n, s, t, u) && !Mispredicted(s)
    requires t.pipe.d != 0 ==> j.Known(ToDecode(s, t)) && !(j.Branches(ToDecode(s, t)) && t.flags.prediction)
    ensures u.fetch == s.fetch.(source := FromIf)
    ensures FetchesOn(j.program, u, IfStage(j.program, u))
  {
    hide Job.RetireCycle, Job.LoadUse, Job.Mispredicts, Job.Outcome, S.Run, Finished, Completed, Latched, IfStage;
    FetchOn(j.program, u);
  }

  lemma FetchStepSquash(j: Job, n: nat, s: State, t: State, u: State)
    requires CycleFacts(j, n, s, t, u) && Mispredicted(s)
    ensures FetchRight(j, n + 1, IfStage(j.program, u))
  {
    hide Job.RetireCycle, Job.LoadUse, Job.Mispredicts, Job.Outcome, S.Run, Finished, Completed, Latched, FetchRight;
    FetchAfterSquash(j, n, s, IfStage(j.program, u));
  }

  lemma FetchStepStall(j: Job, n: nat, s: State, t: State, u: State)
    requires CycleFacts(j, n, s, t, u) && s.flags.hazard && FetchRight(j, n, s)
    requires j.Known(ToDecode(s, t)) && !(j.Branches(ToDecode(s, t)) && t.flags.prediction)
    ensures FetchRight(j, n + 1, IfStage(j.program, u))
  {
    hide Job.RetireCycle, Job.LoadUse, Job.Mispredicts, Job.Outcome, S.Run, Finished, Completed, Latched, IfStage;
    StalledBefore(j, n, s);
    FetchesNext(j, n, s, t, u);
    NotStalledNow(j, n, s, t, u);
    FetchAfterStall(j, n, s, IfStage(j.program, u));
  }

  lemma FetchStepTaken(j: Job, n: nat, s: State, t: State, u: State)
    requires CycleFacts(j, n, s, t, u) && TakesBranch(j, s)
    ensures FetchRight(j, n + 1, IfStage(j.program, u))
  {
    hide Job.RetireCycle, Job.LoadUse, Job.Outcome, S.Run, Finished, Completed, Latched, IfStage, FetchRight;
    MispredictionSeen(j, s, t);
    FetchesNext(j, n, s, t, u);
    FetchAfterTaken(j, n, s, IfStage(j.program, u));
  }

  lemma FetchStepOn(j: Job, n: nat, s: State, t: State, u: State)
    requires CycleFacts(j, n, s, t, u) && !Mispredicted(s) && !s.flags.hazard && !TakesBranch(j, s)
    requires t.pipe.d != 0 ==>
      && j.Known(ToDecode(s, t)) && !(j.Branches(ToDecode(s, t)) && t.flags.prediction)
      && !j.Mispredicts(ToDecode(s, t)) && !j.Outcome(ToDecode(s, t))
    ensures FetchRight(j, n + 1, IfStage(j.program, u))
  {
    hide Job.RetireCycle, Job.LoadUse, Job.Mispredicts, Job.Outcome, S.Run, Finished, Completed, Latched, IfStage;
    FetchesNext(j, n, s, t, u);
    FetchedBehind(j, n, s, t);
    var v := IfStage(j.program, u);
    if t.pipe.d != 0 {
      FetchSequential(j, n, s, v, ToDecode(s, t));
    } else {
      FetchIdle(j, n, s, v);
    }
  }

  lemma PredictorForId(j: Job, s: State, t: State)
    requires Ran(j, s, t) && !Mispredicted(t)
    ensures t.flags.prediction == j.Predictor(ToDecode(s, t))
  {
    hide S.Run, S.Taken, Job.Poison, Completed;
  }

  lemma FetchStep(j: Job, n: nat, s: State, t: State, u: State)
    requires CycleFacts(j, n, s, t, u)
    requires t.pipe.d != 0 ==>
      !(j.Branches(ToDecode(s, t)) && t.flags.prediction) && !j.Mispredicts(ToDecode(s, t))
    ensures FetchRight(j, n + 1, IfStage(j.program, u))
  {
    hide Job.RetireCycle, Job.LoadUse, S.Run, Finished, Completed, Latched, IfStage, FetchRight, HazardRight;
    PredictorForId(j, s, t);
    if t.pipe.d != 0 {
      KnownAt(j, ToDecode(s, t), Reaches(s));
    }
    if Mispredicted(s) {
      FetchStepSquash(j, n, s, t, u);
    } else if s.flags.hazard {
      StalledBefore(j, n, s);
      FetchStepWhenStalled(j, n, s, t, u);
    } else if TakesBranch(j, s) {
      FetchStepTaken(j, n, s, t, u);
    } else {
      FetchStepOn(j, n, s, t, u);
    }
  }

  lemma FetchStepWhenStalled(j: Job, n: nat, s: State, t: State, u: State)
    requires CycleFacts(j, n, s, t, u) && s.flags.hazard && !Mispredicted(s) && s.pipe.d != 0
    requires j.Known(ToDecode(s, t))
    requires !(j.Branches(ToDecode(s, t)) && t.flags.prediction) && !j.Mispredicts(ToDecode(s, t))
    ensures FetchRight(j, n + 1, IfStage(j.program, u))
  {
    hide Job.RetireCycle, Job.LoadUse, Job.Mispredicts, Job.Outcome, S.Run, Finished, Completed, Latched, IfStage;
    hide FetchRight;
    FetchStepStall(j, n, s, t, u);
  }

  lemma IdFront(j: Job, n: nat, s: State, t: State, u: State)
    requires PipeInText(j.program, t.pipe) && Ran(j, s, t) && Issued(j, n, s, t, u) && !Mispredicted(t)
    ensures var v := IfStage(j.program, u);
      && IdRight(j, n + 1, v)
      && v.pipe.d == t.pipe.d && InId(v) == ToDecode(s, t)
      && v.flags.prediction == t.flags.prediction
  {
    hide Job.RetireCycle, Finished, Completed, Redirect;
  }

  lemma FrontStep(j: Job, n: nat, s: State, t: State, u: State)
    requires CycleFacts(j, n, s, t, u)
    ensures FrontRight(j, n + 1, IfStage(j.program, u))
  {
    hide Job.RetireCycle, Job.LoadUse, Job.Mispredicts, Job.Outcome, S.Run, Finished, Completed;
    hide FetchRight, RedirectRight, Redirect, IfStage, Ran, Issued, Invariant, IdRight;
    IdFront(j, n, s, t, u);
    if t.pipe.d != 0 && j.Branches(ToDecode(s, t)) && t.flags.prediction {
      RedirectStep(j, n, s, t, u);
    } else if !(t.pipe.d != 0 && j.Mispredicts(ToDecode(s, t))) {
      FetchStep(j, n, s, t, u);
    }
  }

  // ---- One cycle keeps the invariant

  lemma BackEndStep(j: Job, n: nat, s: State)
    requires j.SoundBefore(Reaches(s)) && Invariant(j, n, s) && s.run
    ensures Ran(j, s, BackEnd(s)) && PipeInText(j.program, BackEnd(s).pipe)
  {
    hide Job.RetireCycle, Finished, Completed, Ran, Accessed, WroteBack, FrontRight;
    var t := WriteBack(Advance(s));
    SoundEarlier(j, InId(s), Reaches(s));
    WriteBackStep(j, n, s);
    MemStep(j, n, s, t);
    ExStep(j, n, s, MemStage(t));
  }

  lemma ZeroAfterRun(j: Job, s: State, t: State)
    requires j.SoundBefore(Reaches(s)) && Ran(j, s, t)
    ensures t.regs[0] == 0
  {
    hide Finished, Completed;
    SoundEarlier(j, InEx(s), Reaches(s));
    RegisterZero(j, InEx(s));
  }

  // One cycle keeps the invariant when nothing has gone wrong up to the instruction
  // that it decodes.
  lemma CycleStep(j: Job, n: nat, s: State)
    requires j.SoundBefore(Reaches(s)) && Invariant(j, n, s) && s.run && ExitsWell(j, s)
    ensures Invariant(j, n + 1, Cycle(j.program, s))
  {
    hide Job.SoundBefore, Finished, Completed, Latched, Job.RetireCycle, FetchRight, RedirectRight, HazardRight;
    hide BackEnd, IdStage, IfStage, Settle, Ran;
    var t := BackEnd(s);
    BackEndStep(j, n, s);
    IdStep(j, n, s, t);
    var u := IdStage(j.program, t);
    var v := IfStage(j.program, u);
    if !Mispredicted(t) {
      FrontStep(j, n, s, t, u);
    }
    PipeStaysInText(j.program, s);
    ZeroAfterRun(j, s, t);
    SettleStep(j, n, s, t, u);
  }

  // What IF and the end of the cycle leave of the back end.
  ghost predicate Settled(t: State, u: State, w: State) {
    && w.regs == t.regs && w.mem == t.mem && w.retired == t.retired && !w.fault
    && w.pipe == t.pipe.(f := w.pipe.f) && w.memWb == t.memWb && w.exMem == t.exMem
    && w.idEx == u.idEx && w.flags == u.flags && w.flags.prediction == t.flags.prediction
  }

  lemma SettleShape(j: Job, n: nat, s: State, t: State, u: State)
    requires PipeInText(j.program, t.pipe) && Issued(j, n, s, t, u) && t.regs[0] == 0
    ensures var v := IfStage(j.program, u);
      var w := Settle(j.program, v);
      && Settled(t, u, v)
      && PipeInText(j.program, v.pipe)
      && w == v.(run := !(v.pipe == Pipe(0, 0, 0, 0, v.pipe.w) && v.pipe.w != 0))
  {
    hide Job.RetireCycle, Latched;
    assert t.regs[0 := 0] == t.regs;
  }

  lemma SettledArchitectural(j: Job, n: nat, s: State, t: State, u: State, w: State)
    requires Invariant(j, n, s) && Ran(j, s, t) && PipeInText(j.program, t.pipe) && Settled(t, u, w)
    ensures Architectural(j, w) && WbRight(j, n + 1, w) && MemRight(j, n + 1, w)
  {
    hide Job.RetireCycle, Finished, Completed, FrontRight, Latched, HazardRight;
  }

  lemma SettledEx(j: Job, n: nat, s: State, t: State, u: State, w: State)
    requires Invariant(j, n, s) && Ran(j, s, t) && PipeInText(j.program, t.pipe) && Settled(t, u, w)
    ensures ExRight(j, n + 1, w)
  {
    hide Job.RetireCycle, Finished, Completed, FetchRight, RedirectRight, Latched, HazardRight;
  }

  lemma PipeNotEmpty(j: Job, n: nat, s: State, t: State, u: State, w: State)
    requires Invariant(j, n, s) && s.run && Ran(j, s, t) && PipeInText(j.program, t.pipe) && Settled(t, u, w)
    ensures w.pipe == Pipe(0, 0, 0, 0, 0) ==> w.retired == 0
  {
    hide Job.RetireCycle, Finished, Completed, FetchRight, RedirectRight, Latched;
  }

  lemma SettleStep(j: Job, n: nat, s: State, t: State, u: State)
    requires Invariant(j, n, s) && s.run && Ran(j, s, t) && PipeInText(j.program, t.pipe) && Issued(j, n, s, t, u)
    requires t.regs[0] == 0
    requires !Mispredicted(t) ==> FrontRight(j, n + 1, IfStage(j.program, u))
    ensures Invariant(j, n + 1, Settle(j.program, IfStage(j.program, u)))
  {
    hide Job.RetireCycle, Finished, Completed, FetchRight, RedirectRight, Latched, Ran, IfStage, Settle;
    hide Architectural, WbRight, MemRight, ExRight;
    var v := IfStage(j.program, u);
    var w := Settle(j.program, v);
    SettleShape(j, n, s, t, u);
    SettledArchitectural(j, n, s, t, u, w);
    SettledEx(j, n, s, t, u, w);
    PipeNotEmpty(j, n, s, t, u, w);
    SameFront(j, n + 1, v, w);
  }

  lemma SameFront(j: Job, n: nat, v: State, w: State)
    requires w == v.(run := w.run)
    ensures FrontRight(j, n, w) == FrontRight(j, n, v)
  {
    hide Job.RetireCycle, Latched, Job.Mispredicts, Job.LoadUse, Job.Outcome, Job.Branches, S.Run;
  }
}

// The pipelined simulator in its own form: one method per stage, each updating
// the latches that the other stages read, proved against the functions of
// Pipeline.
module PipelineCpu {
  import opened Mips
  import opened MainMemory
  import opened Pipeline

  const IF_STAGE := 0
  const ID_STAGE := 1
  const EX_STAGE := 2
  const MEM_STAGE := 3
  const WB_STAGE := 4

  class Cpu {
    const program: Program
    const memory: MemoryRegions
    const regs: array<Word>
    const pipe: array<Word>  // PIPE

    var pc: Word
    var ifPc: Word
    var jumpPc: Word
    var branchPc: Word
    var pcSrc: PcSource
    var prediction: bool
    var predictSuccess: bool
    var hazard: bool

    var idEx: IdEx
    var exMem: ExMem
    var memWb: MemWb
    var forward: Forward

    var instructionCount: nat
    var runBit: bool
    var exited: bool

    ghost predicate Valid()
      reads this, memory
    {
      memory.Valid() && regs.Length == 32 && pipe.Length == 5 && regs != pipe
    }

    ghost function PipeView(): Pipe
      reads this, memory, pipe
      requires Valid()
    {
      Pipe(pipe[IF_STAGE], pipe[ID_STAGE], pipe[EX_STAGE], pipe[MEM_STAGE], pipe[WB_STAGE])
    }

    ghost function View(): State
      reads this, memory, regs, pipe, memory.text, memory.data
      requires Valid()
    {
      State(FetchUnit(pc, ifPc, jumpPc, branchPc, pcSrc), Flags(prediction, predictSuccess, hazard),
            PipeView(), idEx, exMem, memWb, forward, regs[..], memory.View(), instructionCount, runBit, exited)
    }

    constructor (program: Program, memory: MemoryRegions)
      requires memory.Valid()
      ensures Valid() && this.program == program && this.memory == memory && fresh(regs) && fresh(pipe)
      ensures View() == Start(seq(32, _ => 0), memory.View())
    {
      this.program := program;
      this.memory := memory;
      regs := new Word[32](_ => 0);
      pipe := new Word[5](_ => 0);
      pc, ifPc, jumpPc, branchPc, pcSrc := TEXT_START, 0, 0, 0, FromIf;
      prediction, predictSuccess, hazard := false, false, false;
      idEx := IdEx(0, 0, 0, 0, 0, 0, 0, 0, NO_EX, NO_MEM, NO_WB);
      exMem := ExMem(0, 0, false, 0, NO_MEM, NO_WB);
      memWb := MemWb(0, 0, 0, NO_WB);
      forward := Forward(0, 0, 0, 0);
      instructionCount, runBit, exited := 0, true, false;
      new;
      assert regs[..] == seq(32, _ => 0);
    }

    method ShiftPipe()
      requires Valid()
      modifies pipe
      ensures PipeView() == Shifted(old(PipeView()), hazard)
    {
      pipe[WB_STAGE] := pipe[MEM_STAGE];
      pipe[MEM_STAGE] := pipe[EX_STAGE];
      if hazard {
        pipe[EX_STAGE] := 0;
      } else {
        pipe[EX_STAGE] := pipe[ID_STAGE];
        pipe[ID_STAGE] := pipe[IF_STAGE];
      }
    }

    method EmptyStages() returns (empty: nat)
      requires Valid()
      ensures empty == 5 <==> PipeView() == Pipe(0, 0, 0, 0, 0)
    {
      empty := 0;
      for i := 0 to 5
        invariant empty <= i && (empty == i <==> forall k :: 0 <= k < i ==> pipe[k] == 0)
      {
        if pipe[i] == 0 {
          empty := empty + 1;
        }
      }
      assert empty == 5 ==> pipe[0] == 0 && pipe[1] == 0 && pipe[2] == 0 && pipe[3] == 0 && pipe[4] == 0;
    }

    method PipelineInit()
      requires Valid()
      modifies this, pipe
      ensures Valid() && View() == Advance(old(View()))
    {
      hide Shifted, Result;
      ShiftPipe();
      var empty := EmptyStages();
      ResetSignals(empty == 5);
      LatchForward();
    }

    method ResetSignals(idle: bool)
      modifies this`prediction, this`predictSuccess, this`hazard, this`pcSrc
      ensures Flags(prediction, predictSuccess, hazard) == Flags(old(prediction) && !idle, true, false)
      ensures pcSrc == FromIf
    {
      if idle {
        prediction := false;
      }
      predictSuccess, hazard, pcSrc := true, false, FromIf;
    }

    method LatchForward()
      modifies this`forward
      ensures forward == Forward(exMem.dest, exMem.aluOut, memWb.dest, Result(memWb))
    {
      forward := Forward(exMem.dest, exMem.aluOut, memWb.dest,
                         if memWb.wb.memtoReg then memWb.aluOut else memWb.memOut);
    }

    method WbStage()
      requires Valid()
      modifies this, regs
      ensures Valid() && View() == WriteBack(old(View()))
    {
      if pipe[WB_STAGE] == 0 {
        return;
      }
      if memWb.wb.regWrite {
        if memWb.wb.memtoReg {
          regs[memWb.dest] := memWb.aluOut;
        } else {
          regs[memWb.dest] := memWb.memOut;
        }
      }
      instructionCount := instructionCount + 1;
    }

    // The branch part of the MEM stage.
    method ResolveBranch()
      requires Valid()
      modifies this, pipe
      ensures Valid()
      ensures View() == if Mispredicted(old(View())) then Squash(old(View())) else old(View())
    {
      hide Next;
      if exMem.mem.branch && exMem.brTake != prediction {
        predictSuccess := false;
        prediction := !prediction;
        if exMem.brTake {
          pcSrc := FromBranch;
          branchPc := exMem.brTarget;
        } else {
          pcSrc := FromIf;
          ifPc := Next(pipe[MEM_STAGE]);
        }
        SquashPipe();
      }
    }

    method SquashPipe()
      requires Valid()
      modifies pipe
      ensures PipeView() == Pipe(0, 0, 0, old(pipe[MEM_STAGE]), old(pipe[WB_STAGE]))
    {
      pipe[IF_STAGE] := 0;
      pipe[ID_STAGE] := 0;
      pipe[EX_STAGE] := 0;
    }

    method SetStage(stage: nat, value: Word)
      requires Valid() && stage < 5
      modifies pipe
      ensures stage == IF_STAGE ==> PipeView() == old(PipeView()).(f := value)
      ensures stage == ID_STAGE ==> PipeView() == old(PipeView()).(d := value)
    {
      pipe[stage] := value;
    }

    method MemStage()
      requires Valid()
      modifies this, pipe, memory.text, memory.data
      ensures Valid() && View() == Pipeline.MemStage(old(View()))
    {
      if pipe[MEM_STAGE] == 0 {
        memWb := MemWb(0, 0, 0, NO_WB);
        return;
      }
      ResolveBranch();
      var latch := memWb;
      if exMem.mem.memRead {
        var found, value := memory.Read32(exMem.aluOut);
        if !found {
          exited, runBit := true, false;
          return;
        }
        latch := latch.(memOut := value);
      } else {
        latch := latch.(aluOut := exMem.aluOut);
      }
      if exMem.mem.memWrite {
        var found := memory.Write32(exMem.aluOut, regs[exMem.dest]);
        if !found {
          exited, runBit := true, false;
          return;
        }
      }
      memWb := latch.(wb := exMem.wb, dest := exMem.dest);
    }

    // Forward_Unit
    method ForwardUnit() returns (a: bool, b: bool, c: bool, d: bool)
      ensures forall read: Word ::
        Forwarded(forward, idEx.rs, read) == if a then forward.exValue else if c then forward.wbValue else read
      ensures forall read: Word ::
        Forwarded(forward, idEx.rt, read) == if b then forward.exValue else if d then forward.wbValue else read
    {
      a, b, c, d := false, false, false, false;
      if forward.exReg != 0 {
        if forward.exReg == idEx.rs {
          a := true;
        }
        if forward.exReg == idEx.rt {
          b := true;
        }
      }
      if forward.wbReg != 0 {
        if forward.exReg != idEx.rs {
          if forward.wbReg == idEx.rs {
            c := true;
          }
        }
        if forward.exReg != idEx.rt {
          if forward.wbReg == idEx.rt {
            d := true;
          }
        }
      }
    }

    // The ALU with its operands.
    method RunAlu() returns (out: Word)
      requires Valid()
      ensures !IsJumpLatch(idEx) ==> out == AluOutput(View())
    {
      hide Alu, SignEx, Forwarded;
      var a, b, c, d := ForwardUnit();
      var alu1 := if a then forward.exValue else if c then forward.wbValue else idEx.reg1;
      var alu2 := if b then forward.exValue else if d then forward.wbValue else idEx.reg2;
      if idEx.ex.aluSrc {
        alu2 := SignEx(idEx.imm);
      }
      out := Alu(alu1, alu2, idEx.ex.aluOp, idEx.func, idEx.sh);
    }

    method ExStage()
      requires Valid()
      modifies this, pipe
      ensures Valid() && View() == Pipeline.ExStage(old(View()))
    {
      if pipe[EX_STAGE] == 0 {
        exMem := ExMem(0, 0, false, 0, NO_MEM, NO_WB);
        return;
      }
      hide BranchTarget;
      var op, func := idEx.ex.aluOp, idEx.func;
      var out := RunAlu();
      if op == 2 || op == 3 || (op == 0 && func == 8) {
        out := exMem.aluOut;
      }
      hide AluOutput;
      LatchResult(out);
      if (op == 4 || op == 5) && prediction {
        SetStage(ID_STAGE, 0);
        pc := exMem.brTarget;
      }
      if op == 2 || op == 3 || (op == 0 && func == 8) {
        SetStage(ID_STAGE, 0);
      }
    }

    method LatchResult(out: Word)
      requires Valid() && out == AluOutput(View())
      modifies this`exMem
      ensures exMem == Executed(old(View()))
    {
      hide BranchTarget, AluOutput;
      exMem := exMem.(aluOut := out);
      if idEx.ex.aluOp == 4 || idEx.ex.aluOp == 5 {
        exMem := exMem.(brTarget := BranchTarget(pipe[EX_STAGE], idEx.imm), brTake := exMem.aluOut != 0);
      }
      exMem := exMem.(dest := idEx.dest, wb := idEx.wb, mem := idEx.mem);
    }

    // Hazard_Detection_Unit
    method HazardDetectionUnit(inst: Instruction)
      modifies this`hazard
      ensures hazard == (old(hazard) || LoadUseHazard(exMem, inst))
    {
      if exMem.mem.memRead && (exMem.dest == inst.rs || exMem.dest == inst.rt) {
        hazard := true;
      }
    }

    // Decoder: the register operands, and by opcode the other fields and the next pc.
    method Decoder(inst: Instruction)
      requires Valid()
      modifies this`idEx, this`jumpPc, this`branchPc, this`pcSrc, regs
      ensures idEx
        == Decoded(old(idEx), old(regs[..]), inst).(ex := old(idEx.ex), mem := old(idEx.mem), wb := old(idEx.wb))
      ensures FetchUnit(pc, ifPc, jumpPc, branchPc, pcSrc) == Redirect(old(View()), inst)
      ensures regs[..] ==
        if inst.opcode == 0x3 then old(regs[..])[31 := Next(pipe[ID_STAGE])] else old(regs[..])
    {
      idEx := idEx.(reg1 := regs[inst.rs], reg2 := regs[inst.rt], rs := inst.rs, rt := inst.rt);
      match inst.opcode {
        case 0x0 =>
          idEx := idEx.(sh := inst.shamt, func := inst.func);
          if inst.func == 0x8 {
            jumpPc := regs[inst.rs];
            pcSrc := FromJump;
          } else {
            idEx := idEx.(dest := inst.rd);
          }
        case 0x2 =>
          idEx := idEx.(imm := inst.imm);
          jumpPc := JumpTarget(pipe[ID_STAGE], inst.target);
          pcSrc := FromJump;
        case 0x3 =>
          regs[31] := Next(pipe[ID_STAGE]);
          idEx := idEx.(imm := inst.imm);
          jumpPc := JumpTarget(pipe[ID_STAGE], inst.target);
          pcSrc := FromJump;
        case _ =>
          idEx := idEx.(imm := inst.imm, dest := inst.rt);
          if (inst.opcode == 0x4 || inst.opcode == 0x5) && prediction {
            branchPc := BranchTarget(pipe[ID_STAGE], inst.imm);
            pcSrc := FromBranch;
          }
      }
    }

    static lemma DecodedControl(l: IdEx, regs: RegFile, inst: Instruction)
      ensures var d := Decoded(l, regs, inst);
        d.ex == ControlOf(inst).ex && d.mem == ControlOf(inst).mem && d.wb == ControlOf(inst).wb
    {
    }

    method IdStage()
      requires Valid() && (pipe[ID_STAGE] == 0 || InText(program, pipe[ID_STAGE]))
      modifies this, regs
      ensures Valid() && View() == Pipeline.IdStage(program, old(View()))
    {
      hide Decoded, ControlOf, LoadUseHazard, BranchTarget, JumpTarget, Next;
      if pipe[ID_STAGE] == 0 {
        idEx := IdEx(0, 0, 0, idEx.sh, idEx.func, 0, 0, 0, NO_EX, NO_MEM, NO_WB);
        return;
      }
      var inst := Fetch(program, pipe[ID_STAGE]);
      var control := ControlOf(inst);
      DecodedControl(idEx, regs[..], inst);
      HazardDetectionUnit(inst);
      Decoder(inst);
      idEx := idEx.(wb := control.wb, mem := control.mem, ex := control.ex);
    }

    method IfStage()
      requires Valid() && (pipe[IF_STAGE] == 0 || InText(program, pipe[IF_STAGE]))
      modifies this, pipe
      ensures Valid() && View() == Pipeline.IfStage(program, old(View()))
    {
      hide Next, InText;
      if !InText(program, pc) {
        SetStage(IF_STAGE, 0);
      } else if hazard {
        SetStage(IF_STAGE, pc);
      } else if predictSuccess {
        SetStage(IF_STAGE, pc);
        ifPc := Next(pc);
      }
      match pcSrc {
        case FromJump => pc := jumpPc;
        case FromBranch => pc := branchPc;
        case FromIf => pc := ifPc;
      }
    }

    method ProcessInstruction()
      requires Valid() && PipeInText(program, View().pipe)
      modifies this, regs, pipe, memory.text, memory.data
      ensures Valid() && View() == Cycle(program, old(View()))
      ensures PipeInText(program, View().pipe)
    {
      hide WriteBack, Pipeline.MemStage, Pipeline.ExStage, Pipeline.IdStage, Pipeline.IfStage;
      PipeStaysInText(program, View());
      PipelineInit();
      WbStage();
      MemStage();
      ExStage();
      IdStage();
      IfStage();
      regs[0] := 0;
      if pipe[WB_STAGE] >= TEXT_START + 4 * |program|
         || (pipe[IF_STAGE] == 0 && pipe[ID_STAGE] == 0 && pipe[EX_STAGE] == 0 && pipe[MEM_STAGE] == 0
             && pipe[WB_STAGE] != 0) {
        runBit := false;
      }
    }

    // cycle: the run bit also clears once `limit` instructions have been written back.
    method CycleOnce(limit: nat)
      requires Valid() && PipeInText(program, View().pipe)
      modifies this, regs, pipe, memory.text, memory.data
      ensures Valid() && View() == Limited(Cycle(program, old(View())), limit)
      ensures PipeInText(program, View().pipe)
    {
      hide Cycle;
      ProcessInstruction();
      if instructionCount >= limit {
        runBit := false;
      }
    }

    // run: cycle until the run bit clears, counting the cycles. The bound says that
    // it does clear.
    method Go(limit: nat, ghost due: nat) returns (cycles: nat)
      requires Valid() && runBit && PipeInText(program, View().pipe)
      requires due > 0 && Ends(Run(program, View(), due), limit)
      modifies this, regs, pipe, memory.text, memory.data
      ensures Valid() && !runBit && cycles > 0
      ensures Ends(Run(program, old(View()), cycles), limit)
      ensures View() == Run(program, old(View()), cycles).(run := false)
      ensures forall n: nat :: 0 < n < cycles ==> !Ends(Run(program, old(View()), n), limit)
    {
      hide Cycle;
      ghost var start := View();
      cycles := 0;
      while runBit
        invariant Valid() && PipeInText(program, View().pipe) && (runBit || cycles > 0)
        invariant runBit ==> View() == Run(program, start, cycles)
        invariant !runBit ==> View() == Run(program, start, cycles).(run := false)
        invariant cycles > 0 ==> (runBit <==> !Ends(Run(program, start, cycles), limit))
        invariant forall n: nat :: 0 < n < cycles ==> !Ends(Run(program, start, n), limit)
        invariant cycles <= due
        decreases due - cycles
      {
        CycleOnce(limit);
        cycles := cycles + 1;
        assert View() == Limited(Run(program, start, cycles), limit);
      }
    }
  }

  // What the bound on the number of instructions does at the end of a cycle.
  function Limited(s: State, limit: nat): State { s.(run := s.run && s.retired < limit) }

  predicate Ends(s: State, limit: nat) { !s.run || s.retired >= limit }
}

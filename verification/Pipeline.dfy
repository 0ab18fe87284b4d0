// The five-stage pipelined simulator, as functions on its state.
// PipelineCpu holds the class whose methods are proved to compute them.
module Pipeline {
  import opened Mips

  // ---- Control signals and pipeline latches

  datatype ExControl = ExControl(aluSrc: bool, aluOp: nat, regDst: bool)
  datatype MemControl = MemControl(branch: bool, memWrite: bool, memRead: bool)
  datatype WbControl = WbControl(memtoReg: bool, regWrite: bool)
  datatype Control = Control(ex: ExControl, mem: MemControl, wb: WbControl)

  const NO_EX := ExControl(false, 0, false)
  const NO_MEM := MemControl(false, false, false)
  const NO_WB := WbControl(false, false)

  datatype IdEx = IdEx(
    reg1: Word, reg2: Word, imm: Half, sh: Register, func: nat,
    rs: Register, rt: Register, dest: Register,
    ex: ExControl, mem: MemControl, wb: WbControl)

  datatype ExMem = ExMem(
    aluOut: Word, brTarget: Word, brTake: bool, dest: Register,
    mem: MemControl, wb: WbControl)

  datatype MemWb = MemWb(aluOut: Word, memOut: Word, dest: Register, wb: WbControl)

  datatype Forward = Forward(exReg: Register, exValue: Word, wbReg: Register, wbValue: Word)

  datatype PcSource = FromIf | FromJump | FromBranch

  // The registers from which IF_Stage chooses the next pc.
  datatype FetchUnit = FetchUnit(pc: Word, ifPc: Word, jumpPc: Word, branchPc: Word, source: PcSource)

  datatype Flags = Flags(prediction: bool, predictSuccess: bool, hazard: bool)

  // PIPE: the pc of the instruction in each stage, 0 where there is none.
  datatype Pipe = Pipe(f: Word, d: Word, x: Word, m: Word, w: Word)

  datatype State = State(
    fetch: FetchUnit, flags: Flags, pipe: Pipe,
    idEx: IdEx, exMem: ExMem, memWb: MemWb, fwd: Forward,
    regs: RegFile, mem: Memory,
    retired: nat,   // INSTRUCTION_COUNT
    run: bool,      // RUN_BIT
    fault: bool)    // the simulator has exited on an access outside its memory

  // The state in which the simulator starts a program.
  function Start(regs: RegFile, mem: Memory): State {
    State(FetchUnit(TEXT_START, 0, 0, 0, FromIf), Flags(false, false, false), Pipe(0, 0, 0, 0, 0),
          IdEx(0, 0, 0, 0, 0, 0, 0, 0, NO_EX, NO_MEM, NO_WB),
          ExMem(0, 0, false, 0, NO_MEM, NO_WB),
          MemWb(0, 0, 0, NO_WB),
          Forward(0, 0, 0, 0),
          regs, mem, 0, true, false)
  }

  // ---- control_init, ALU, Forward_Unit

  function ControlOf(i: Instruction): Control {
    Control(
      ExControl(!(i.opcode == 0x0 || i.opcode == 0x4 || i.opcode == 0x5), i.opcode, i.opcode == 0x0),
      MemControl(IsBranch(i), IsStore(i), IsLoad(i)),
      WbControl(!IsLoad(i), Writes(i)))
  }

  // alu2 >> sh on `int`: the sign bit fills from the left.
  function ShiftRightArithmetic(a: Word, k: Register): Word
    decreases k, a
  {
    if k == 0 then a else ShiftRightArithmetic(a / 2 + (if a < 0x8000_0000 then 0 else 0x8000_0000), k - 1)
  }

  // The simulator leaves the result of an unknown function code undefined; 0 here.
  function Alu(a: Word, b: Word, op: nat, func: nat, sh: Register): Word {
    match op
    case 0x8 => Add(a, b)
    case 0xc => And(a, b)
    case 0xf => And(ShiftLeft(b, 16), 0xffff_0000)
    case 0xd => Or(a, And(b, 0xffff))
    case 0xa => if AsInt(a) < AsInt(b) then 1 else 0
    case 0x23 => Add(a, b)
    case 0x2b => Add(a, b)
    case 0x4 => if a == b then 1 else 0
    case 0x5 => if a != b then 1 else 0
    case 0x0 => (
      match func
      case 0x20 => Add(a, b)
      case 0x24 => And(a, b)
      case 0x27 => Not(Or(a, b))
      case 0x25 => Or(a, b)
      case 0x2a => if AsInt(a) < AsInt(b) then 1 else 0
      case 0x0 => ShiftLeft(b, sh)
      case 0x2 => And(ShiftRightArithmetic(b, sh), 0x7fff_ffff)
      case 0x22 => Sub(a, b)
      case _ => 0)
    case _ => 0
  }

  // The operand for register r, whose value at decode was `read`.
  function Forwarded(fwd: Forward, r: Register, read: Word): Word {
    if fwd.exReg != 0 && fwd.exReg == r then fwd.exValue
    else if fwd.wbReg != 0 && fwd.exReg != r && fwd.wbReg == r then fwd.wbValue
    else read
  }

  // The bits by which a register is written back.
  function Result(l: MemWb): Word { if l.wb.memtoReg then l.aluOut else l.memOut }

  // ---- The stages, in the order in which one cycle runs them

  // pipeline_init: advance the pipe, holding IF and ID after a hazard.
  function Shifted(p: Pipe, hazard: bool): Pipe {
    if hazard then Pipe(p.f, p.d, 0, p.x, p.m) else Pipe(p.f, p.f, p.d, p.x, p.m)
  }

  function Advance(s: State): State {
    var pipe := Shifted(s.pipe, s.flags.hazard);
    s.(pipe := pipe,
       flags := Flags(s.flags.prediction && pipe != Pipe(0, 0, 0, 0, 0), true, false),
       fetch := s.fetch.(source := FromIf),
       fwd := Forward(s.exMem.dest, s.exMem.aluOut, s.memWb.dest, Result(s.memWb)))
  }

  function WriteBack(s: State): (t: State)
    ensures t.pipe == s.pipe
  {
    if s.pipe.w == 0 then s
    else s.(regs := if s.memWb.wb.regWrite then s.regs[s.memWb.dest := Result(s.memWb)] else s.regs,
            retired := s.retired + 1)
  }

  // A branch in MEM whose outcome is not what was predicted.
  predicate Mispredicted(s: State) {
    s.exMem.mem.branch && s.exMem.brTake != s.flags.prediction
  }

  function Squash(s: State): State {
    s.(pipe := Pipe(0, 0, 0, s.pipe.m, s.pipe.w),
       flags := Flags(!s.flags.prediction, false, s.flags.hazard),
       fetch :=
         if s.exMem.brTake then s.fetch.(source := FromBranch, branchPc := s.exMem.brTarget)
         else s.fetch.(source := FromIf, ifPc := Next(s.pipe.m)))
  }

  predicate Faults(s: State) {
    (s.exMem.mem.memRead || s.exMem.mem.memWrite) && !InMemory(s.exMem.aluOut)
  }

  function AccessMemory(s: State): State
    requires !Faults(s)
  {
    var l, a := s.memWb, s.exMem.aluOut;
    s.(memWb := MemWb(if s.exMem.mem.memRead then l.aluOut else a,
                      if s.exMem.mem.memRead then ReadWord(s.mem, a) else l.memOut,
                      s.exMem.dest, s.exMem.wb),
       mem := if s.exMem.mem.memWrite then WriteWord(s.mem, a, s.regs[s.exMem.dest]) else s.mem)
  }

  function MemStage(s: State): (t: State)
    ensures t.pipe == s.pipe || t.pipe == Pipe(0, 0, 0, s.pipe.m, s.pipe.w)
  {
    if s.pipe.m == 0 then s.(memWb := MemWb(0, 0, 0, NO_WB))
    else
      var t := if Mispredicted(s) then Squash(s) else s;
      if Faults(t) then t.(fault := true, run := false) else AccessMemory(t)
  }

  predicate IsJumpLatch(l: IdEx) { l.ex.aluOp == 2 || l.ex.aluOp == 3 || (l.ex.aluOp == 0 && l.func == 8) }

  predicate IsBranchLatch(l: IdEx) { l.ex.aluOp == 4 || l.ex.aluOp == 5 }

  function AluOutput(s: State): Word {
    var l := s.idEx;
    var a := Forwarded(s.fwd, l.rs, l.reg1);
    var b := if l.ex.aluSrc then SignEx(l.imm) else Forwarded(s.fwd, l.rt, l.reg2);
    if IsJumpLatch(l) then s.exMem.aluOut else Alu(a, b, l.ex.aluOp, l.func, l.sh)
  }

  function Executed(s: State): ExMem {
    var l := s.idEx;
    if IsBranchLatch(l) then
      ExMem(AluOutput(s), BranchTarget(s.pipe.x, l.imm), AluOutput(s) != 0, l.dest, l.mem, l.wb)
    else
      ExMem(AluOutput(s), s.exMem.brTarget, s.exMem.brTake, l.dest, l.mem, l.wb)
  }

  function ExStage(s: State): (t: State)
    ensures t.pipe == s.pipe || t.pipe == s.pipe.(d := 0)
  {
    if s.pipe.x == 0 then s.(exMem := ExMem(0, 0, false, 0, NO_MEM, NO_WB))
    else if IsBranchLatch(s.idEx) && s.flags.prediction then
      s.(exMem := Executed(s), pipe := s.pipe.(d := 0),
         fetch := s.fetch.(pc := BranchTarget(s.pipe.x, s.idEx.imm)))
    else if IsJumpLatch(s.idEx) then s.(exMem := Executed(s), pipe := s.pipe.(d := 0))
    else s.(exMem := Executed(s))
  }

  // Hazard_Detection_Unit: the load now in EX names a register of this instruction.
  predicate LoadUseHazard(l: ExMem, i: Instruction) {
    l.mem.memRead && (l.dest == i.rs || l.dest == i.rt)
  }

  function Decoded(l: IdEx, regs: RegFile, i: Instruction): IdEx {
    var c := ControlOf(i);
    IdEx(regs[i.rs], regs[i.rt],
         if i.opcode == 0x0 then l.imm else i.imm,
         if i.opcode == 0x0 then i.shamt else l.sh,
         if i.opcode == 0x0 then i.func else l.func,
         i.rs, i.rt,
         if IsJump(i) then l.dest else Dest(i),
         c.ex, c.mem, c.wb)
  }

  // What Decoder asks of the fetch unit.
  function Redirect(s: State, i: Instruction): FetchUnit {
    if IsJumpRegister(i) then s.fetch.(jumpPc := s.regs[i.rs], source := FromJump)
    else if i.opcode == 0x2 || i.opcode == 0x3 then
      s.fetch.(jumpPc := JumpTarget(s.pipe.d, i.target), source := FromJump)
    else if IsBranch(i) && s.flags.prediction then
      s.fetch.(branchPc := BranchTarget(s.pipe.d, i.imm), source := FromBranch)
    else s.fetch
  }

  function IdStage(p: Program, s: State): (t: State)
    requires s.pipe.d == 0 || InText(p, s.pipe.d)
    ensures t.pipe == s.pipe
  {
    if s.pipe.d == 0 then
      s.(idEx := IdEx(0, 0, 0, s.idEx.sh, s.idEx.func, 0, 0, 0, NO_EX, NO_MEM, NO_WB))
    else
      var i := Fetch(p, s.pipe.d);
      s.(flags := s.flags.(hazard := s.flags.hazard || LoadUseHazard(s.exMem, i)),
         idEx := Decoded(s.idEx, s.regs, i),
         fetch := Redirect(s, i),
         regs := if i.opcode == 0x3 then s.regs[31 := Next(s.pipe.d)] else s.regs)
  }

  function NextFetch(u: FetchUnit): Word {
    match u.source
    case FromJump => u.jumpPc
    case FromBranch => u.branchPc
    case FromIf => u.ifPc
  }

  function IfStage(p: Program, s: State): (t: State)
    requires s.pipe.f == 0 || InText(p, s.pipe.f)
    ensures t.pipe == s.pipe.(f := t.pipe.f) && (t.pipe.f == 0 || InText(p, t.pipe.f))
  {
    var u := s.fetch;
    if !InText(p, u.pc) then s.(pipe := s.pipe.(f := 0), fetch := u.(pc := NextFetch(u)))
    else if s.flags.hazard then s.(pipe := s.pipe.(f := u.pc), fetch := u.(pc := NextFetch(u)))
    else if s.flags.predictSuccess then
      var v := u.(ifPc := Next(u.pc));
      s.(pipe := s.pipe.(f := u.pc), fetch := v.(pc := NextFetch(v)))
    else s.(fetch := u.(pc := NextFetch(u)))
  }

  // The end of process_instruction: register 0 is zero, and the run bit clears
  // when only the write-back stage is occupied.
  function Settle(p: Program, s: State): State {
    s.(regs := s.regs[0 := 0],
       run := s.run
              && s.pipe.w < TEXT_START + 4 * |p|
              && !(s.pipe == Pipe(0, 0, 0, 0, s.pipe.w) && s.pipe.w != 0))
  }

  predicate Slot(p: Program, pc: Word) { pc == 0 || InText(p, pc) }

  predicate PipeInText(p: Program, q: Pipe) {
    Slot(p, q.f) && Slot(p, q.d) && Slot(p, q.x) && Slot(p, q.m) && Slot(p, q.w)
  }

  function BackEnd(s: State): (t: State)
    ensures t.pipe.d in {0, s.pipe.d, s.pipe.f}
  {
    ExStage(MemStage(WriteBack(Advance(s))))
  }

  // process_instruction: one cycle.
  function Cycle(p: Program, s: State): State
    requires PipeInText(p, s.pipe)
  {
    Settle(p, IfStage(p, IdStage(p, BackEnd(s))))
  }

  lemma PipeStaysInText(p: Program, s: State)
    requires PipeInText(p, s.pipe)
    ensures PipeInText(p, Cycle(p, s).pipe)
  {
  }

  // The state after n cycles. Once the run bit is clear nothing more happens.
  ghost function Run(p: Program, s: State, n: nat): State
    requires PipeInText(p, s.pipe)
    ensures PipeInText(p, Run(p, s, n).pipe)
  {
    if n == 0 then s
    else
      var t := Run(p, s, n - 1);
      if t.run then PipeStaysInText(p, t); Cycle(p, t) else t
  }
}

// The single-cycle simulator: one call executes one instruction.
module Sequential {
  import opened Mips
  import opened MainMemory

  datatype Machine = Machine(pc: Word, regs: RegFile, mem: Memory)

  // The value an arithmetic instruction writes, from its two register operands.
  function Value(i: Instruction, a: Word, b: Word): Word {
    match i.opcode
    case 0x0 => (
      match i.func
      case 0x20 => Add(a, b)
      case 0x24 => And(a, b)
      case 0x27 => Not(Or(a, b))
      case 0x25 => Or(a, b)
      case 0x2a => if a < b then 1 else 0
      case 0x0 => ShiftLeft(b, i.shamt)
      case 0x2 => ShiftRight(b, i.shamt)
      case 0x22 => Sub(a, b)
      case _ => 0)
    case 0x8 => Add(a, SignEx(i.imm))
    case 0xc => And(a, SignEx(i.imm))
    case 0xf => ShiftLeft(SignEx(i.imm), 16)
    case 0xd => Or(a, SignEx(i.imm))
    case 0xa => if AsInt(a) < AsInt(SignEx(i.imm)) then 1 else 0
    case _ => 0
  }

  function EffectiveAddress(i: Instruction, a: Word): Word { Add(a, SignEx(i.imm)) }

  predicate Taken(i: Instruction, a: Word, b: Word) {
    if i.opcode == 0x4 then a == b else a != b
  }

  // What one instruction does to registers, memory and program counter.
  function Step(p: Program, s: Machine): Machine
    requires InText(p, s.pc)
  {
    var i := Fetch(p, s.pc);
    var a, b := s.regs[i.rs], s.regs[i.rt];
    var next := Next(s.pc);
    if IsArithmetic(i) then Machine(next, s.regs[Dest(i) := Value(i, a, b)], s.mem)
    else if IsLoad(i) then Machine(next, s.regs[Dest(i) := LoadedValue(s.mem, EffectiveAddress(i, a))], s.mem)
    else if IsStore(i) then Machine(next, s.regs, Stored(s.mem, EffectiveAddress(i, a), b))
    else if IsBranch(i) then Machine(if Taken(i, a, b) then BranchTarget(s.pc, i.imm) else next, s.regs, s.mem)
    else if IsJumpRegister(i) then Machine(a, s.regs, s.mem)
    else if i.opcode == 0x2 then Machine(JumpTarget(next, i.target), s.regs, s.mem)
    else if i.opcode == 0x3 then Machine(JumpTarget(next, i.target), s.regs[31 := next], s.mem)
    else Machine(next, s.regs, s.mem)
  }

  // This simulator reads 0 and drops the write where no region holds the word.
  function LoadedValue(m: Memory, a: Word): Word {
    if InMemory(a) then ReadWord(m, a) else 0
  }

  function Stored(m: Memory, a: Word, v: Word): Memory {
    if InMemory(a) then WriteWord(m, a, v) else m
  }

  // The machine after k instructions; it stops once its pc leaves the text.
  ghost function Run(p: Program, s: Machine, k: nat): Machine {
    if k == 0 then s
    else
      var before := Run(p, s, k - 1);
      if InText(p, before.pc) then Step(p, before) else before
  }

  // Instruction number k is executed.
  ghost predicate Live(p: Program, s: Machine, k: nat) {
    InText(p, Run(p, s, k).pc)
  }

  lemma {:induction false} LiveBefore(p: Program, s: Machine, j: nat, k: nat)
    requires j <= k && Live(p, s, k)
    ensures Live(p, s, j)
    decreases k
  {
    if j < k {
      LiveBefore(p, s, j, k - 1);
    }
  }

  lemma {:induction false} StoppedAfter(p: Program, s: Machine, j: nat, k: nat)
    requires j <= k && !Live(p, s, j)
    ensures Run(p, s, k) == Run(p, s, j)
    decreases k
  {
    if j < k {
      StoppedAfter(p, s, j, k - 1);
    }
  }

  class SequentialCpu {
    const program: Program
    const memory: MemoryRegions
    const regs: array<Word>
    var pc: Word
    var running: bool  // RUN_BIT

    ghost predicate Valid()
      reads this, memory
    {
      && memory.Valid()
      && regs.Length == 32
    }

    ghost function View(): Machine
      reads this, memory, regs, memory.text, memory.data
      requires Valid()
    {
      Machine(pc, regs[..], memory.View())
    }

    constructor (program: Program, memory: MemoryRegions)
      requires memory.Valid()
      ensures Valid() && this.program == program && this.memory == memory && running && fresh(regs)
      ensures View() == Machine(TEXT_START, seq(32, _ => 0), memory.View())
    {
      this.program := program;
      this.memory := memory;
      regs := new Word[32](_ => 0);
      pc := TEXT_START;
      running := true;
      new;
      assert regs[..] == seq(32, _ => 0);
    }

    // The register-register forms, opcode 0.
    method ExecuteRegister(instr: Instruction)
      requires Valid() && instr.opcode == 0x0
      modifies this`pc, regs
      ensures regs[..] ==
        if IsArithmetic(instr)
        then old(regs[..])[instr.rd := Value(instr, old(regs[instr.rs]), old(regs[instr.rt]))]
        else old(regs[..])
      ensures pc == if IsJumpRegister(instr) then old(regs[instr.rs]) else old(pc)
    {
      match instr.func {
        case 0x20 => regs[instr.rd] := Add(regs[instr.rs], regs[instr.rt]);
        case 0x24 => regs[instr.rd] := And(regs[instr.rs], regs[instr.rt]);
        case 0x8 => pc := regs[instr.rs];
        case 0x27 => regs[instr.rd] := Not(Or(regs[instr.rs], regs[instr.rt]));
        case 0x25 => regs[instr.rd] := Or(regs[instr.rs], regs[instr.rt]);
        case 0x2a => regs[instr.rd] := if regs[instr.rs] < regs[instr.rt] then 1 else 0;
        case 0x0 => regs[instr.rd] := ShiftLeft(regs[instr.rt], instr.shamt);
        case 0x2 => regs[instr.rd] := ShiftRight(regs[instr.rt], instr.shamt);
        case 0x22 => regs[instr.rd] := Sub(regs[instr.rs], regs[instr.rt]);
        case _ =>
      }
    }

    // The forms with an immediate operand that touch only registers.
    method ExecuteImmediate(instr: Instruction)
      requires Valid() && instr.opcode in {0x8, 0xc, 0xf, 0xd, 0xa}
      modifies regs
      ensures regs[..] ==
        old(regs[..])[instr.rt := Value(instr, old(regs[instr.rs]), old(regs[instr.rt]))]
    {
      match instr.opcode {
        case 0x8 => regs[instr.rt] := Add(regs[instr.rs], SignEx(instr.imm));
        case 0xc => regs[instr.rt] := And(regs[instr.rs], SignEx(instr.imm));
        case 0xf => regs[instr.rt] := ShiftLeft(SignEx(instr.imm), 16);
        case 0xd => regs[instr.rt] := Or(regs[instr.rs], SignEx(instr.imm));
        case _ => regs[instr.rt] := if AsInt(regs[instr.rs]) < AsInt(SignEx(instr.imm)) then 1 else 0;
      }
    }

    // process_instruction
    method ProcessInstruction()
      requires Valid() && InText(program, pc)
      modifies this, regs, memory.text, memory.data
      ensures Valid()
      ensures View() == Step(program, old(View()))
      ensures running == (old(running) && InText(program, pc))
    {
      hide Value;
      var instr := Fetch(program, pc);
      pc := Next(pc);
      match instr.opcode {
        case 0x0 => ExecuteRegister(instr);
        case 0x4 =>
          if regs[instr.rs] == regs[instr.rt] {
            pc := (pc + 4 * AsInt(SignEx(instr.imm))) % TWO_32;
          }
        case 0x5 =>
          if regs[instr.rs] != regs[instr.rt] {
            pc := (pc + 4 * AsInt(SignEx(instr.imm))) % TWO_32;
          }
        case 0x23 =>
          var found, value := memory.Read32(EffectiveAddress(instr, regs[instr.rs]));
          regs[instr.rt] := value;
        case 0x2b =>
          var found := memory.Write32(EffectiveAddress(instr, regs[instr.rs]), regs[instr.rt]);
        case 0x2 => pc := JumpTarget(pc, instr.target);
        case 0x3 =>
          regs[31] := pc;
          pc := JumpTarget(pc, instr.target);
        case _ =>
          if instr.opcode in {0x8, 0xc, 0xf, 0xd, 0xa} {
            ExecuteImmediate(instr);
          }
      }
      if !InText(program, pc) {
        running := false;
      }
    }

    // go: execute until the run bit clears. The bound says that it does.
    method Go(ghost count: nat)
      requires Valid() && running && InText(program, pc)
      requires !Live(program, View(), count)
      modifies this, regs, memory.text, memory.data
      ensures Valid() && !running
      ensures View() == Run(program, old(View()), count)
    {
      ghost var start := View();
      ghost var k: nat := 0;
      while running
        invariant Valid() && View() == Run(program, start, k) && running == InText(program, pc)
        invariant k <= count
        decreases count - k
      {
        ProcessInstruction();
        k := k + 1;
      }
      StoppedAfter(program, start, k, count);
    }
  }
}

// What the sequential run of a program says about the pipeline that runs it:
// branch outcomes, the predictor, stalls, and the cycle at which each
// instruction is written back. Everything here is a function of the program and of
// the sequential run alone.
module Schedule {
  import opened Mips
  import S = Sequential
  import opened AluAgreement
  import opened Pipeline

  // The sequential run that a theorem is about: a program and its start state.
  datatype Job = Job(program: Program, start: S.Machine) {

    ghost function At(k: nat): S.Machine { S.Run(program, start, k) }

    ghost predicate Live(k: nat) { S.Live(program, start, k) }

    ghost function Instr(k: nat): Instruction
      requires Live(k)
    {
      Fetch(program, At(k).pc)
    }

    ghost function Rs(k: nat): Word
      requires Live(k)
    {
      At(k).regs[Instr(k).rs]
    }

    ghost function Rt(k: nat): Word
      requires Live(k)
    {
      At(k).regs[Instr(k).rt]
    }

    // Instruction k is a branch, and whether it goes to its target.
    ghost predicate Branches(k: nat) { Live(k) && IsBranch(Instr(k)) }

    ghost predicate Outcome(k: nat) { Branches(k) && S.Taken(Instr(k), Rs(k), Rt(k)) }

    // The one-bit predictor before instruction k: what the last branch did.
    ghost predicate Predictor(k: nat) {
      k > 0 && if Branches(k - 1) then Outcome(k - 1) else Predictor(k - 1)
    }

    ghost predicate Mispredicts(k: nat) { Branches(k) && Outcome(k) != Predictor(k) }

    // Instruction k is a load and the next instruction names its destination.
    ghost predicate LoadUse(k: nat) {
      && Live(k) && Live(k + 1)
      && IsLoad(Instr(k))
      && (Instr(k).rt == Instr(k + 1).rs || Instr(k).rt == Instr(k + 1).rt)
    }

    // Empty slots between instruction k and the next.
    ghost function Bubbles(k: nat): nat {
      if Mispredicts(k) then 3
      else if Outcome(k) then 1
      else if LoadUse(k) then 1
      else 0
    }

    // The cycle, counted from 1, in which instruction k is in the write-back stage.
    ghost function RetireCycle(k: nat): nat {
      if k == 0 then 5 else RetireCycle(k - 1) + 1 + Bubbles(k - 1)
    }

    // Forwarding hands instruction k, as the value of register r, the ALU output
    // of a store or branch that names r as its rt and never writes it.
    ghost predicate FalseForward(k: nat, r: Register)
      requires Live(k)
    {
      || FromPrevious(k, r)
      || FromBeforePrevious(k, r)
    }

    ghost predicate Poisons(k: nat, r: Register) {
      Live(k) && Dest(Instr(k)) == r && !Writes(Instr(k))
    }

    ghost predicate FromPrevious(k: nat, r: Register) {
      r != 0 && k >= 1 && Poisons(k - 1, r) && Bubbles(k - 1) <= 1
    }

    ghost predicate FromBeforePrevious(k: nat, r: Register) {
      && r != 0 && k >= 2 && Poisons(k - 2, r)
      && Bubbles(k - 2) == 0 && Bubbles(k - 1) == 0
      && Live(k - 1) && Dest(Instr(k - 1)) != r
    }

    // No jump, and nothing that one of the simulators does not know.
    ghost predicate Known(k: nat)
      requires Live(k)
    {
      var i := Instr(k);
      IsArithmetic(i) || IsLoad(i) || IsStore(i) || IsBranch(i)
    }

    // Instruction k computes the same in both simulators.
    ghost predicate Supported(k: nat)
      requires Live(k)
    {
      var i := Instr(k);
      || (IsArithmetic(i) && SameArithmetic(i, Rs(k), Rt(k)))
      || ((IsLoad(i) || IsStore(i)) && InMemory(S.EffectiveAddress(i, Rs(k))))
      || IsBranch(i)
    }

    ghost predicate OperandsForwarded(k: nat)
      requires Live(k)
    {
      && (UsesRs(Instr(k)) ==> !FalseForward(k, Instr(k).rs))
      && (UsesRt(Instr(k)) ==> !FalseForward(k, Instr(k).rt))
    }

    // What a store or branch that names register r leaves for forwarding.
    ghost function Poison(k: nat): Word
      requires Live(k)
    {
      if Branches(k) then (if Outcome(k) then 1 else 0) else S.EffectiveAddress(Instr(k), Rs(k))
    }

    // The value of register r that instruction k computes with in the pipeline.
    ghost function OperandSeen(k: nat, r: Register): Word
      requires Live(k)
    {
      if FromPrevious(k, r) then Poison(k - 1)
      else if FromBeforePrevious(k, r) then Poison(k - 2)
      else At(k).regs[r]
    }

    // The pc from which fetching resumes after a correctly predicted taken
    // branch whose target is outside the text.
    ghost function ResumePc(k: nat): Word {
      if k > 0 && LoadUse(k - 1) then Next(At(k).pc) else Next(Next(At(k).pc))
    }

    // If that happens to instruction k, there is nothing left to fetch there.
    ghost predicate LeavesText(k: nat) {
      Outcome(k) && Predictor(k) && !Live(k + 1) ==> !InText(program, ResumePc(k))
    }

    ghost predicate Clean(k: nat)
      requires Live(k)
    {
      && Supported(k)
      && OperandsForwarded(k)
      && At(k + 1).regs[0] == 0
    }

    ghost predicate StartsRight() {
      && start.pc == TEXT_START
      && start.regs[0] == 0
      && (forall i :: i in program ==> i.opcode != 0x3)
    }

    ghost predicate Sound() {
      StartsRight() && forall k: nat :: Live(k) ==> Clean(k)
    }

    // Up to instruction k nothing has gone wrong; what k itself is handed is left open.
    ghost predicate SoundBefore(k: nat) {
      && StartsRight()
      && (forall i: nat :: i < k && Live(i) ==> Clean(i))
      && (Live(k) ==> Known(k))
    }

    // What the ALU of the pipeline makes of the operands seen, and what the sequential
    // machine computes: a result, an address, or whether a branch is taken.
    ghost function ValueSeen(k: nat): Word
      requires Live(k)
    {
      var i := Instr(k);
      Alu(OperandSeen(k, i.rs), SecondOperand(i, OperandSeen(k, i.rt)), i.opcode, i.func, i.shamt)
    }

    ghost function ValueDue(k: nat): Word
      requires Live(k)
    {
      if IsArithmetic(Instr(k)) then S.Value(Instr(k), Rs(k), Rt(k)) else Poison(k)
    }

    // The jobs on which the pipeline computes what the sequential machine does.
    ghost predicate Refines() {
      Sound() && forall k: nat :: Live(k) ==> LeavesText(k)
    }
  }
}

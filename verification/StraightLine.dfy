// Programs without branches and jumps: conditions that can be read off the
// program, and the number of cycles they take.
module StraightLine {
  import opened Mips
  import S = Sequential
  import opened AluAgreement
  import opened Schedule
  import opened PipelineTheorems
  import opened BranchingPrograms

  predicate IsStraightLine(p: Program) {
    forall i :: i in p ==> IsArithmetic(i) || IsLoad(i) || IsStore(i)
  }

  // Neither of the two instructions after a store reads the register it stores.
  predicate StoresSpaced(p: Program) {
    forall a, b :: 0 <= a < b < |p| && b <= a + 2 && IsStore(p[a]) && p[a].rt != 0 ==> !Reads(p[b], p[a].rt)
  }

  predicate Suitable(p: Program) {
    IsStraightLine(p) && StoresSpaced(p) && forall i :: i in p ==> Simple(i)
  }

  // The adjacent pairs among the first n instructions that stall the pipeline.
  function LoadUsePairs(p: Program, n: nat): nat
    requires n <= |p|
  {
    if n < 2 then 0
    else
      LoadUsePairs(p, n - 1)
      + if IsLoad(p[n - 2]) && (p[n - 2].rt == p[n - 1].rs || p[n - 2].rt == p[n - 1].rt) then 1 else 0
  }

  lemma {:induction false} PcOf(j: Job, k: nat)
    requires IsStraightLine(j.program) && j.start.pc == TEXT_START && k <= |j.program|
    ensures j.At(k).pc == TEXT_START + 4 * k
    ensures j.Live(k) <==> k < |j.program|
    ensures k < |j.program| ==> j.Instr(k) == j.program[k]
  {
    hide S.Value;
    if k > 0 {
      PcOf(j, k - 1);
      assert j.program[k - 1] in j.program;
    }
  }

  lemma LiveRange(j: Job, k: nat)
    requires IsStraightLine(j.program) && j.start.pc == TEXT_START
    ensures j.Live(k) <==> k < |j.program|
    ensures k < |j.program| ==> j.Instr(k) == j.program[k]
  {
    if k <= |j.program| {
      PcOf(j, k);
    } else {
      PcOf(j, |j.program|);
      if j.Live(k) {
        S.LiveBefore(j.program, j.start, |j.program|, k);
      }
    }
  }

  lemma SuitableIsCheckable(p: Program)
    requires Suitable(p)
    ensures Checkable(p)
  {
    forall a: Word, b: Word | Follows(p, a, b)
      ensures !Spoils(p, a, b)
    {
      NextIndex(p, a, b);
    }
    forall a: Word, b: Word, c: Word | Follows(p, a, b) && Follows(p, b, c)
      ensures !Spoils(p, a, c)
    {
      NextIndex(p, a, b);
      NextIndex(p, b, c);
    }
    forall a: Word | InText(p, a)
      ensures !IsBranch(Fetch(p, a))
    {
      assert Fetch(p, a) in p;
    }
  }

  lemma SuitableRefines(j: Job)
    requires Suitable(j.program) && AddressesInMemory(j)
    requires j.start.pc == TEXT_START && j.start.regs[0] == 0
    ensures j.Refines()
  {
    hide Checkable, AddressesInMemory, Suitable, Job.Refines;
    SuitableIsCheckable(j.program);
    CheckableRefines(j);
  }

  lemma NextIndex(p: Program, a: Word, b: Word)
    requires IsStraightLine(p) && Follows(p, a, b)
    ensures (b - TEXT_START) / 4 == (a - TEXT_START) / 4 + 1
    ensures Fetch(p, a) in p && Fetch(p, b) in p
  {
    assert Fetch(p, a) in p;
  }

  lemma {:induction false} CyclesNeeded(j: Job, k: nat)
    requires IsStraightLine(j.program) && j.start.pc == TEXT_START && k < |j.program|
    ensures j.RetireCycle(k) == k + 5 + LoadUsePairs(j.program, k + 1)
  {
    hide S.Run, Job.Predictor;
    if k > 0 {
      CyclesNeeded(j, k - 1);
      LiveRange(j, k - 1);
      LiveRange(j, k);
      assert j.program[k - 1] in j.program;
    }
  }

  // Instruction k is written back in cycle k + 5 and one later for each pair before it.
  lemma EachOnItsCycle(j: Job, k: nat, n: nat)
    requires Suitable(j.program) && AddressesInMemory(j) && k < |j.program|
    requires j.start.pc == TEXT_START && j.start.regs[0] == 0
    ensures After(j, n).retired > k <==> n >= k + 5 + LoadUsePairs(j.program, k + 1)
  {
    hide S.Run, Job.RetireCycle, Job.Refines, AddressesInMemory, Suitable;
    SuitableRefines(j);
    IsStraight(j.program);
    LiveRange(j, k);
    CyclesNeeded(j, k);
    RetiredByItsCycle(j, k, n);
  }

  // A straight-line program of n instructions with h load-use pairs runs for
  // exactly n + h + 4 cycles and leaves the registers and memory that executing
  // its instructions one by one does.
  lemma StraightLineRun(j: Job)
    requires Suitable(j.program) && AddressesInMemory(j) && |j.program| > 0
    requires j.start.pc == TEXT_START && j.start.regs[0] == 0
    ensures var cycles := |j.program| + LoadUsePairs(j.program, |j.program|) + 4;
      && (forall n: nat :: After(j, n).run <==> n < cycles)
      && After(j, cycles).retired == |j.program|
      && After(j, cycles).regs == j.At(|j.program|).regs
      && After(j, cycles).mem == j.At(|j.program|).mem
  {
    hide S.Run, Job.RetireCycle, Job.Refines, AddressesInMemory, Suitable;
    var n := |j.program|;
    SuitableRefines(j);
    IsStraight(j.program);
    LiveRange(j, n - 1);
    LiveRange(j, n);
    CyclesNeeded(j, n - 1);
    HaltsOnTime(j, n);
  }

  lemma IsStraight(p: Program)
    requires Suitable(p)
    ensures IsStraightLine(p)
  {
  }
}

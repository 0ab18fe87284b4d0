// What the pipelined simulator computes and when, for whole runs.
module PipelineTheorems {
  import opened Mips
  import S = Sequential
  import opened AluAgreement
  import opened Pipeline
  import opened Schedule
  import opened Refinement

  // The pipeline after n cycles of the job's program.
  ghost function After(j: Job, n: nat): State {
    Run(j.program, Start(j.start.regs, j.start.mem), n)
  }

  // ---- Every cycle of every run

  lemma {:induction false} InvariantAlways(j: Job, n: nat) returns (m: nat)
    requires j.Refines()
    ensures m <= n && Invariant(j, m, After(j, n)) && After(j, m) == After(j, n)
    ensures After(j, n).run ==> m == n
  {
    hide Invariant, Cycle, Start, Job.Sound, PipeInText;
    if n == 0 {
      SoundAt(j, 0);
      StartsRight(j, 0);
      StartInvariant(j);
      m := 0;
    } else {
      m := InvariantAlways(j, n - 1);
      var s := After(j, n - 1);
      if s.run {
        ExitsAsRequired(j, s);
        SoundAt(j, Reaches(s));
        CycleStep(j, n - 1, s);
        m := n;
      }
    }
  }

  lemma ExitsAsRequired(j: Job, s: State)
    requires j.Refines()
    ensures ExitsWell(j, s)
  {
    hide Job.Sound, Job.LeavesText;
  }

  // After any number of cycles, the registers are those of the sequential machine
  // after as many instructions as have been written back, and the memory that of
  // one instruction more if there is one in MEM. What is in WB and MEM is the
  // sequential machine's own next instructions: nothing squashed gets that far.
  lemma CycleByCycle(j: Job, n: nat)
    requires j.Refines()
    ensures var s := After(j, n);
      && s.regs == j.At(s.retired).regs
      && s.mem == j.At(s.retired + if s.pipe.m != 0 then 1 else 0).mem
      && !s.fault
      && (s.pipe.w != 0 ==> s.retired > 0 && j.Live(s.retired - 1) && s.pipe.w == j.At(s.retired - 1).pc)
      && (s.pipe.m != 0 ==> j.Live(s.retired) && s.pipe.m == j.At(s.retired).pc)
  {
    hide Job.Refines, FrontRight, HazardRight, Run, Start, S.Run, Job.RetireCycle;
    var m := InvariantAlways(j, n);
  }

  // ---- When it halts

  // The next instruction to be written back is written back in a later cycle.
  lemma NotYet(j: Job, n: nat, s: State)
    requires Invariant(j, n, s) && j.Live(s.retired)
    ensures n < j.RetireCycle(s.retired)
  {
    hide Job.RetireCycle, Completed, Finished, Latched, RedirectRight, S.Run, Job.Mispredicts, Job.Outcome;
  }

  // A halted pipeline has written back every instruction there is.
  lemma HaltedMeansDone(j: Job, n: nat, s: State)
    requires Invariant(j, n, s) && !s.run
    ensures s.retired > 0 && j.Live(s.retired - 1) && !j.Live(s.retired) && n == j.RetireCycle(s.retired - 1)
  {
    hide Job.RetireCycle, Completed, Finished, Latched, RedirectRight, S.Run, Job.Mispredicts, Job.Outcome;
  }

  lemma {:induction false} RetiresInOrder(j: Job, a: nat, b: nat)
    requires a <= b
    ensures j.RetireCycle(a) + (b - a) <= j.RetireCycle(b)
    decreases b
  {
    hide Job.Bubbles;
    if a < b {
      RetiresInOrder(j, a, b - 1);
    }
  }

  // Once the last instruction is due, the pipeline has halted.
  lemma DoneMeansHalted(j: Job, n: nat, s: State, count: nat)
    requires Invariant(j, n, s) && count > 0 && j.Live(count - 1) && !j.Live(count)
    requires n == j.RetireCycle(count - 1)
    ensures !s.run && s.retired == count
  {
    hide Job.RetireCycle, Completed, Finished, Latched, RedirectRight, S.Run, Job.Mispredicts, Job.Outcome;
    if s.retired < count {
      S.LiveBefore(j.program, j.start, s.retired, count - 1);
      NotYet(j, n, s);
      RetiresInOrder(j, s.retired, count - 1);
    } else if s.retired > count {
      S.LiveBefore(j.program, j.start, count, s.retired - 1);
    }
  }

  // The program of `count` instructions that the sequential machine executes takes
  // exactly as many cycles as its last instruction's write-back is due, and then
  // both machines hold the same registers and memory.
  lemma HaltsOnTime(j: Job, count: nat)
    requires j.Refines() && count > 0 && j.Live(count - 1) && !j.Live(count)
    ensures forall n: nat :: After(j, n).run <==> n < j.RetireCycle(count - 1)
    ensures forall n: nat :: n >= j.RetireCycle(count - 1) ==>
      var s := After(j, n);
      && s.retired == count
      && s.regs == j.At(count).regs
      && s.mem == j.At(count).mem
  {
    hide Job.RetireCycle, Run, Start, Job.Refines, Job.Live;
    forall n: nat
      ensures After(j, n).run <==> n < j.RetireCycle(count - 1)
      ensures n >= j.RetireCycle(count - 1) ==>
        After(j, n).retired == count && After(j, n).regs == j.At(count).regs && After(j, n).mem == j.At(count).mem
    {
      HaltsAt(j, count, n);
    }
  }

  // Instruction k has been written back exactly when its cycle has come, so one
  // instruction at most is written back in a cycle, and in program order.
  lemma RetiredByItsCycle(j: Job, k: nat, n: nat)
    requires j.Refines() && j.Live(k)
    ensures After(j, n).retired > k <==> n >= j.RetireCycle(k)
  {
    hide Job.RetireCycle, Start, Job.Refines, Invariant, Run, S.Run;
    var s := After(j, n);
    var m := InvariantAlways(j, n);
    if s.retired > k {
      LastWrittenBack(j, m, s);
      RetiresInOrder(j, k, s.retired - 1);
    } else {
      S.LiveBefore(j.program, j.start, s.retired, k);
      NotYet(j, m, s);
      if !s.run {
        HaltedMeansDone(j, m, s);
      }
      RetiresInOrder(j, s.retired, k);
    }
  }

  // A bound on the number of instructions stops the run in the cycle that writes back
  // the last one allowed. The registers are then those after as many instructions; the
  // next one may already have stored.
  lemma StopsAtLimit(j: Job, limit: nat, n: nat)
    requires j.Refines() && limit > 0 && j.Live(limit - 1)
    ensures After(j, n).retired >= limit <==> n >= j.RetireCycle(limit - 1)
    ensures n == j.RetireCycle(limit - 1) ==>
      var s := After(j, n);
      && s.retired == limit && s.regs == j.At(limit).regs
      && s.mem == j.At(if s.pipe.m != 0 then limit + 1 else limit).mem
  {
    hide Job.RetireCycle, Start, Job.Refines, Invariant, Run, S.Run;
    RetiredByItsCycle(j, limit - 1, n);
    CycleByCycle(j, n);
    if n == j.RetireCycle(limit - 1) && After(j, n).retired > limit {
      var m := InvariantAlways(j, n);
      LastWrittenBack(j, m, After(j, n));
      RetiresInOrder(j, limit - 1, After(j, n).retired - 1);
    }
  }

  lemma LastWrittenBack(j: Job, n: nat, s: State)
    requires Invariant(j, n, s) && s.retired > 0
    ensures j.RetireCycle(s.retired - 1) <= n
  {
    hide Job.RetireCycle, Completed, Finished, Latched, RedirectRight, FetchRight, S.Run;
  }

  lemma HaltsAt(j: Job, count: nat, n: nat)
    requires j.Refines() && count > 0 && j.Live(count - 1) && !j.Live(count)
    ensures After(j, n).run <==> n < j.RetireCycle(count - 1)
    ensures n >= j.RetireCycle(count - 1) ==>
      var s := After(j, n);
      s.retired == count && s.regs == j.At(count).regs && s.mem == j.At(count).mem
  {
    hide Job.RetireCycle, Start, Job.Refines, Invariant, Run, S.Run;
    var s, due := After(j, n), j.RetireCycle(count - 1);
    var m := InvariantAlways(j, n);
    if !s.run {
      HaltedMeansDone(j, m, s);
      if s.retired < count {
        S.LiveBefore(j.program, j.start, s.retired, count - 1);
      } else if s.retired > count {
        S.LiveBefore(j.program, j.start, count, s.retired - 1);
      }
      HaltedPipe(j, m, s);
    } else if n >= due {
      StillRunning(j, due, n);
      var k := InvariantAlways(j, due);
      DoneMeansHalted(j, due, After(j, due), count);
    }
  }

  lemma HaltedPipe(j: Job, n: nat, s: State)
    requires Invariant(j, n, s) && !s.run
    ensures s.regs == j.At(s.retired).regs && s.mem == j.At(s.retired).mem
  {
  }

  lemma {:induction false} StillRunning(j: Job, m: nat, n: nat)
    requires m <= n && After(j, n).run
    ensures After(j, m).run
    decreases n
  {
    if m < n {
      StillRunning(j, m, n - 1);
    }
  }

  // ---- Leaving the text

  // Until it is handed its operands, nothing depends on instruction k.
  lemma {:induction false} InvariantBefore(j: Job, k: nat, n: nat)
    requires j.SoundBefore(k) && j.Live(k) && n + 3 <= j.RetireCycle(k)
    ensures After(j, n).run && Invariant(j, n, After(j, n))
  {
    hide Job.RetireCycle, Start, Job.SoundBefore, Invariant, S.Run, Cycle, PipeInText;
    if n == 0 {
      StartsRight(j, k);
      StartInvariant(j);
    } else {
      InvariantBefore(j, k, n - 1);
      var s := After(j, n - 1);
      EarlierExits(j, k, n - 1, s);
      ReachesNoFurther(j, k, n - 1, s);
      SoundEarlier(j, Reaches(s), k);
      CycleStep(j, n - 1, s);
    }
    var s := After(j, n);
    if !s.run {
      HaltedMeansDone(j, n, s);
      if k < s.retired {
        RetiresInOrder(j, k, s.retired - 1);
      } else {
        S.LiveBefore(j.program, j.start, s.retired, k);
      }
    }
  }

  lemma StartsRight(j: Job, k: nat)
    requires j.SoundBefore(k)
    ensures j.StartsRight()
  {
  }

  lemma ReachesNoFurther(j: Job, k: nat, n: nat, s: State)
    requires Invariant(j, n, s) && n + 3 < j.RetireCycle(k)
    ensures Reaches(s) <= k
  {
    hide Job.RetireCycle, Completed, Finished, Latched, RedirectRight, FetchRight, S.Run, Job.Mispredicts, HazardRight;
    if Issues(s) && k <= InId(s) {
      RetiresInOrder(j, k, InId(s));
    } else if k < InId(s) {
      RetiresInOrder(j, k, InId(s) - 1);
    }
  }

  lemma LastIsLast(j: Job, last: nat, k: nat)
    requires j.Live(last) && !j.Live(last + 1) && j.Live(k) && !j.Live(k + 1)
    ensures k == last
  {
    hide S.Run;
    if k < last {
      S.LiveBefore(j.program, j.start, k + 1, last);
    } else if k > last {
      S.LiveBefore(j.program, j.start, last + 1, k);
    }
  }

  lemma EarlierExits(j: Job, last: nat, n: nat, s: State)
    requires Invariant(j, n, s) && j.Live(last) && n + 3 < j.RetireCycle(last)
    ensures ExitsWell(j, s)
  {
    hide Job.RetireCycle, Completed, Finished, Latched, RedirectRight, FetchRight, S.Run, Job.Mispredicts, HazardRight;
    if TakesBranch(j, s) && !j.Live(InId(s) + 1) {
      if last <= InId(s) {
        RetiresInOrder(j, last, InId(s));
      } else {
        S.LiveBefore(j.program, j.start, InId(s) + 1, last);
      }
    }
  }

  // Three cycles before its write-back an instruction is in ID and moves on.
  lemma LastInId(j: Job, last: nat, n: nat, s: State)
    requires Invariant(j, n, s) && j.Live(last) && n + 3 == j.RetireCycle(last)
    requires Mispredicted(s) ==> j.RetireCycle(InId(s)) == n + 6
    ensures InId(s) == last && Issues(s)
  {
    hide Job.RetireCycle, Completed, Finished, Latched, RedirectRight, S.Run, Job.Mispredicts, HazardRight;
    if InId(s) < last {
      S.LiveBefore(j.program, j.start, InId(s), last);
      RetiresInOrder(j, InId(s), last);
    } else if InId(s) > last {
      RetiresInOrder(j, last, InId(s) - 1);
    }
  }

  lemma AfterMisprediction(j: Job, n: nat, s: State)
    requires Invariant(j, n, s) && Mispredicted(s)
    ensures j.RetireCycle(InId(s)) == n + 6
  {
    hide Job.Predictor, Job.LoadUse, S.Run, FrontRight, HazardRight, Completed;
    RetireNext(j, InEx(s));
  }

  lemma TakenBranch(j: Job, n: nat, s: State)
    requires j.Sound() && Invariant(j, n, s) && s.run && TakesBranch(j, s) && j.Outcome(InId(s))
    ensures Ran(j, s, BackEnd(s)) && PipeInText(j.program, BackEnd(s).pipe)
    ensures j.At(InId(s) + 1).pc == BranchTarget(j.At(InId(s)).pc, j.Instr(InId(s)).imm)
  {
    hide Job.RetireCycle, Job.LoadUse, Job.Predictor, Completed, Latched, FetchRight, HazardRight, S.Run, BackEnd, Ran;
    var k := InId(s);
    SoundAt(j, Reaches(s));
    BackEndStep(j, n, s);
    CleanAt(j, k, Reaches(s));
    StepFacts(j, k);
  }

  // A branch has been taken as predicted to a target outside the text: what the
  // next cycle finds in the pipe.
  lemma FetchesBeyond(j: Job, n: nat, s: State)
    requires j.Sound() && Invariant(j, n, s) && s.run && TakesBranch(j, s) && j.Outcome(InId(s))
    requires s.flags.prediction == j.Predictor(InId(s))
    requires !j.Live(InId(s) + 1) && InText(j.program, j.ResumePc(InId(s)))
    ensures var r := Cycle(j.program, s);
      && r.pipe == Pipe(0, 0, s.pipe.d, s.pipe.x, s.pipe.m)
      && r.fetch.pc == j.ResumePc(InId(s))
      && r.run && !r.flags.hazard && !Mispredicted(r)
      && !r.exMem.mem.memRead && !r.exMem.mem.memWrite
  {
    hide Job.RetireCycle, Job.LoadUse, Job.Predictor, Completed, Latched, FetchRight, HazardRight, S.Run, Job.ResumePc;
    hide BackEnd, Job.Sound, Job.Clean;
    var t := BackEnd(s);
    TakenBranch(j, n, s);
    FetchOn(j.program, IdStage(j.program, t));
  }

  // With IF and ID empty the instruction at pc is fetched, and the one in EX goes on to MEM.
  lemma EmptyFront(p: Program, s: State)
    requires PipeInText(p, s.pipe) && s.pipe.f == s.pipe.d == 0 && s.pipe.x != 0 && s.run
    requires InText(p, s.fetch.pc) && !s.flags.hazard && !Mispredicted(s)
    requires !s.exMem.mem.memRead && !s.exMem.mem.memWrite
    ensures var r := Cycle(p, s);
      && r.pipe == Pipe(s.fetch.pc, 0, 0, s.pipe.x, s.pipe.m)
      && r.run && !r.flags.hazard && !r.exMem.mem.branch
  {
    var m := MemStage(WriteBack(Advance(s)));
    assert m.pipe == Pipe(0, 0, 0, s.pipe.x, s.pipe.m) && m.run && m.fetch == s.fetch.(source := FromIf);
    assert m.flags.predictSuccess && !m.flags.hazard;
    var x := ExStage(m);
    assert x.exMem == ExMem(0, 0, false, 0, NO_MEM, NO_WB);
    assert x.pipe == m.pipe && x.fetch == m.fetch && x.flags == m.flags;
    FetchOn(p, IdStage(p, x));
  }

  lemma OnlyFetched(p: Program, s: State)
    requires PipeInText(p, s.pipe) && s.pipe.f != 0 && s.pipe.d == s.pipe.x == 0 && s.pipe.m != 0 && s.run
    requires !s.flags.hazard
    ensures Cycle(p, s).run
  {
    var m := MemStage(WriteBack(Advance(s)));
    assert m.pipe == Pipe(s.pipe.f, s.pipe.f, 0, 0, s.pipe.m) && m.run;
    var x := ExStage(m);
    assert x.pipe == m.pipe && x.run;
    var d := IdStage(p, x);
    assert d.pipe == m.pipe && d.run;
  }

  // The pipeline stops when its last instruction is due if and only if that
  // instruction is not a branch that leaves the text as predicted while there
  // still is an instruction at the pc from which fetching then resumes.
  lemma HaltsOnTimeExactly(j: Job, last: nat)
    requires j.Sound() && j.Live(last) && !j.Live(last + 1)
    ensures !After(j, j.RetireCycle(last)).run <==> j.LeavesText(last)
  {
    hide Job.RetireCycle, Start, Job.Sound, Invariant, S.Run, Cycle, PipeInText, Job.LeavesText, Job.Clean;
    if j.LeavesText(last) {
      OnlyLastLeaves(j, last);
      HaltsAt(j, last + 1, j.RetireCycle(last));
    } else {
      RunsOn(j, last);
    }
  }

  lemma OnlyLastLeaves(j: Job, last: nat)
    requires j.Sound() && j.Live(last) && !j.Live(last + 1) && j.LeavesText(last)
    ensures j.Refines()
  {
    hide Job.Sound, Job.Outcome, Job.Predictor, S.Run;
    forall k: nat | j.Live(k)
      ensures j.LeavesText(k)
    {
      if !j.Live(k + 1) {
        LastIsLast(j, last, k);
      }
    }
  }

  lemma RunsOn(j: Job, last: nat)
    requires j.Sound() && j.Live(last) && !j.Live(last + 1) && !j.LeavesText(last)
    ensures After(j, j.RetireCycle(last)).run
  {
    hide Start, S.Run, Cycle, Job.Bubbles, Job.Predictor, Job.Clean, Job.ResumePc;
    RetiresInOrder(j, 0, last);
    var n := j.RetireCycle(last) - 3;
    SoundAt(j, last);
    InvariantBefore(j, last, n);
    var s := After(j, n);
    if Mispredicted(s) {
      AfterMisprediction(j, n, s);
    }
    LastInId(j, last, n, s);
    PredictionIsPredictor(j, n, s);
    FetchesBeyond(j, n, s);
    assert After(j, n + 1) == Cycle(j.program, s);
    EmptyFront(j.program, After(j, n + 1));
    assert After(j, n + 2) == Cycle(j.program, After(j, n + 1));
    OnlyFetched(j.program, After(j, n + 2));
    assert After(j, n + 3) == Cycle(j.program, After(j, n + 2));
  }

  lemma PredictionIsPredictor(j: Job, n: nat, s: State)
    requires Invariant(j, n, s) && Issues(s)
    ensures s.flags.prediction == j.Predictor(InId(s))
  {
    hide Job.RetireCycle, FrontRight, HazardRight, Completed, S.Run;
  }
}

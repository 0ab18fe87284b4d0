// Speculation, for every program: which instructions get past decode, in what
// order, and what the others can change. Jumps included, and no condition on data.
module ControlPath {
  import opened Mips
  import opened Pipeline

  // ---- Where the instruction in EX sends control

  // The successor that the instruction which has just been in EX chose: its jump
  // target (for jr, the register that the decoder read), or its branch target exactly
  // if the branch is taken.
  function Chosen(p: Program, s: State): Word
    requires s.pipe.x != 0 && InText(p, s.pipe.x)
  {
    var i := Fetch(p, s.pipe.x);
    if IsJumpRegister(i) then s.fetch.jumpPc
    else if IsJump(i) then JumpTarget(s.pipe.x, i.target)
    else if IsBranch(i) && s.exMem.brTake then BranchTarget(s.pipe.x, i.imm)
    else Next(s.pipe.x)
  }

  // ---- What every cycle keeps

  ghost predicate LatchedD(p: Program, s: State)
    requires PipeInText(p, s.pipe)
  {
    s.pipe.d != 0 ==>
      var i := Fetch(p, s.pipe.d);
      && s.idEx.ex == ControlOf(i).ex && s.idEx.mem == ControlOf(i).mem && s.idEx.wb == ControlOf(i).wb
      && (if i.opcode == 0x0 then s.idEx.func == i.func else s.idEx.imm == i.imm)
      && (!IsJump(i) ==> s.idEx.dest == Dest(i))
      && s.idEx.rs == i.rs && (i.rs != 0 && i.opcode != 0x3 ==> s.idEx.reg1 == s.regs[i.rs])
      && (IsJumpRegister(i) ==> s.fetch.jumpPc == s.idEx.reg1)
  }

  ghost predicate LatchedX(p: Program, s: State)
    requires PipeInText(p, s.pipe)
  {
    if s.pipe.x == 0 then s.exMem.mem == NO_MEM && s.exMem.wb == NO_WB
    else
      var i := Fetch(p, s.pipe.x);
      && s.exMem.mem == ControlOf(i).mem && s.exMem.wb == ControlOf(i).wb
      && (!IsJump(i) ==> s.exMem.dest == Dest(i))
      && (IsBranch(i) ==> s.exMem.brTarget == BranchTarget(s.pipe.x, i.imm))
  }

  ghost predicate LatchedM(p: Program, s: State)
    requires PipeInText(p, s.pipe)
  {
    if s.pipe.m == 0 then s.memWb.wb == NO_WB
    else
      var i := Fetch(p, s.pipe.m);
      s.memWb.wb == ControlOf(i).wb && (!IsJump(i) ==> s.memWb.dest == Dest(i))
  }

  // The instruction in ID sends the fetch unit elsewhere.
  ghost predicate Redirects(p: Program, s: State)
    requires PipeInText(p, s.pipe)
  {
    s.pipe.d != 0 && (IsJump(Fetch(p, s.pipe.d)) || (IsBranch(Fetch(p, s.pipe.d)) && s.flags.prediction))
  }

  function RedirectTarget(p: Program, s: State): Word
    requires s.pipe.d != 0 && InText(p, s.pipe.d)
  {
    var i := Fetch(p, s.pipe.d);
    if IsJumpRegister(i) then s.fetch.jumpPc
    else if IsJump(i) then JumpTarget(s.pipe.d, i.target)
    else BranchTarget(s.pipe.d, i.imm)
  }

  // How the fetch unit follows the instruction in ID.
  ghost predicate FetchFollows(p: Program, s: State)
    requires PipeInText(p, s.pipe)
  {
    if Redirects(p, s) then s.fetch.pc == RedirectTarget(p, s)
    else if s.pipe.f != 0 then
      && (s.pipe.d != 0 ==> s.pipe.f == Next(s.pipe.d))
      && s.fetch.pc == s.fetch.ifPc == (if s.flags.hazard then s.pipe.f else Next(s.pipe.f))
    else s.pipe.d != 0 ==> s.fetch.pc == s.fetch.ifPc == Next(s.pipe.d) && !InText(p, s.fetch.pc)
  }

  // The next instruction to enter EX is the one at e, if that is in the text.
  ghost predicate Awaits(p: Program, s: State, e: Word)
  {
    InText(p, e) ==>
      if s.pipe.d != 0 then s.pipe.d == e
      else if s.pipe.f != 0 then s.pipe.f == e
      else s.fetch.pc == e
  }

  ghost predicate Front(p: Program, s: State, e: Word)
    requires PipeInText(p, s.pipe)
  {
    && (s.pipe.x != 0 ==> e == Chosen(p, s))
    && (!Mispredicted(s) ==> FetchFollows(p, s) && Awaits(p, s, e))
  }

  ghost predicate Kept(p: Program, s: State, e: Word) {
    && PipeInText(p, s.pipe)
    && LatchedD(p, s) && LatchedX(p, s)
    && (s.fault || LatchedM(p, s))
    && (s.fault ==> !s.run)
    && (s.flags.hazard ==> s.pipe.d != 0 && s.exMem.mem.memRead && s.pipe.x != 0)
    && Front(p, s, e)
  }

  // The instruction to expect in EX after one more cycle.
  function Expected(p: Program, t: State, e: Word): Word
    requires PipeInText(p, t.pipe)
  {
    if t.pipe.x != 0 then Chosen(p, t) else e
  }

  lemma KeptStep(p: Program, s: State, e: Word)
    requires Kept(p, s, e)
    ensures PipeInText(p, Cycle(p, s).pipe)
    ensures Kept(p, Cycle(p, s), Expected(p, Cycle(p, s), e))
    ensures Cycle(p, s).pipe.x != 0 && InText(p, e) ==> Cycle(p, s).pipe.x == e
  {
    PipeStaysInText(p, s);
    if Mispredicted(s) {
      SquashStep(p, s, e);
    } else {
      PredictedStep(p, s, e);
    }
  }

  // MEM hands on what it has for the instruction that was in EX, or has faulted.
  ghost predicate MemHands(p: Program, s: State, m: State)
    requires PipeInText(p, s.pipe)
  {
    && m.pipe.m == s.pipe.x
    && (m.fault || (m.memWb.wb == s.exMem.wb && m.memWb.dest == s.exMem.dest) || (s.pipe.x == 0 && m.memWb.wb == NO_WB))
    && (m.fault ==> !m.run)
  }

  lemma MemHandsOn(p: Program, s: State)
    requires PipeInText(p, s.pipe) && (s.fault ==> !s.run)
    ensures MemHands(p, s, MemStage(WriteBack(Advance(s))))
  {
    hide ReadWord, WriteWord, InMemory;
  }

  lemma ExKeepsMem(m: State)
    ensures var x := ExStage(m);
      x.memWb == m.memWb && x.pipe.m == m.pipe.m && x.fault == m.fault && x.run == m.run
  {
    hide AluOutput, Executed, IsJumpLatch, IsBranchLatch;
  }

  lemma FrontKeepsMem(p: Program, x: State)
    requires PipeInText(p, x.pipe)
    ensures var t := Settle(p, IfStage(p, IdStage(p, x)));
      t.memWb == x.memWb && t.pipe.m == x.pipe.m && t.fault == x.fault && (t.run ==> x.run)
  {
    hide Decoded, Redirect, LoadUseHazard;
  }

  lemma KeepsMem(p: Program, m: State)
    requires PipeInText(p, ExStage(m).pipe)
    ensures var t := Settle(p, IfStage(p, IdStage(p, ExStage(m))));
      t.memWb == m.memWb && t.pipe.m == m.pipe.m && t.fault == m.fault && (t.run ==> m.run)
  {
    hide ExStage, IdStage, IfStage, Settle;
    ExKeepsMem(m);
    FrontKeepsMem(p, ExStage(m));
  }

  lemma LatchedMStep(p: Program, s: State)
    requires PipeInText(p, s.pipe) && LatchedX(p, s) && (s.fault ==> !s.run)
    ensures var t := Cycle(p, s);
      PipeInText(p, t.pipe) && (t.fault || LatchedM(p, t)) && (t.fault ==> !t.run)
  {
    PipeStaysInText(p, s);
    BackEndInText(p, s);
    MemHandsOn(p, s);
    hide Advance, WriteBack, MemStage, ExStage, IdStage, IfStage, Settle;
    KeepsMem(p, MemStage(WriteBack(Advance(s))));
  }

  lemma BackEndInText(p: Program, s: State)
    requires PipeInText(p, s.pipe)
    ensures PipeInText(p, BackEnd(s).pipe)
  {
  }

  // A branch that was predicted wrongly empties the stages behind it, and its true
  // successor is fetched next.
  lemma MemSquashes(s: State)
    requires Mispredicted(s) && s.pipe.x != 0 && !s.flags.hazard
    ensures var m := MemStage(WriteBack(Advance(s)));
      && m.pipe == Pipe(0, 0, 0, s.pipe.x, s.pipe.m) && !m.flags.predictSuccess && !m.flags.hazard
      && NextFetch(m.fetch) == (if s.exMem.brTake then s.exMem.brTarget else Next(s.pipe.x))
  {
    var a := WriteBack(Advance(s));
    assert a.pipe == Shifted(s.pipe, false) && a.exMem == s.exMem;
    assert a.flags.prediction == s.flags.prediction && !a.flags.hazard;
    hide ReadWord, WriteWord, InMemory, WriteBack, Advance;
  }

  lemma SquashStep(p: Program, s: State, e: Word)
    requires Kept(p, s, e) && Mispredicted(s)
    ensures PipeInText(p, Cycle(p, s).pipe) && Cycle(p, s).pipe.x == 0
    ensures Kept(p, Cycle(p, s), e)
  {
    var m := MemStage(WriteBack(Advance(s)));
    MemSquashes(s);
    assert e == NextFetch(m.fetch);
    hide MemStage, WriteBack, Advance, Mispredicted, Chosen, LatchedD, Front;
    var r := Cycle(p, s);
    LatchedMStep(p, s);
    assert r.pipe == m.pipe && r.fetch.pc == e && !r.flags.hazard && r.exMem == ExMem(0, 0, false, 0, NO_MEM, NO_WB);
    Emptied(p, r, e);
  }

  lemma Emptied(p: Program, r: State, e: Word)
    requires PipeInText(p, r.pipe) && r.pipe.f == r.pipe.d == r.pipe.x == 0 && r.fetch.pc == e && !r.flags.hazard
    requires r.exMem == ExMem(0, 0, false, 0, NO_MEM, NO_WB)
    requires (r.fault || LatchedM(p, r)) && (r.fault ==> !r.run)
    ensures Kept(p, r, e)
  {
  }

  // After MEM and EX: what has moved, what EX has emptied, and an undisturbed fetch unit.
  ghost predicate Moved(p: Program, s: State, t: State)
    requires PipeInText(p, s.pipe)
  {
    && t.pipe.x == (if s.flags.hazard then 0 else s.pipe.d)
    && t.pipe.d == (if s.flags.hazard then s.pipe.d else if Redirects(p, s) then 0 else s.pipe.f)
    && t.fetch == s.fetch.(source := FromIf)
    && t.flags.predictSuccess && !t.flags.hazard
    && (s.pipe != Pipe(0, 0, 0, 0, s.pipe.w) ==> t.flags.prediction == s.flags.prediction)
  }

  lemma MemMoves(s: State)
    requires !Mispredicted(s)
    ensures var m := MemStage(WriteBack(Advance(s)));
      && m.pipe == Shifted(s.pipe, s.flags.hazard) && m.fetch == s.fetch.(source := FromIf)
      && m.flags.predictSuccess && !m.flags.hazard && m.idEx == s.idEx
      && m.flags.prediction == (s.flags.prediction && m.pipe != Pipe(0, 0, 0, 0, 0))
  {
  }

  lemma ExMoves(p: Program, s: State, m: State)
    requires PipeInText(p, s.pipe) && LatchedD(p, s) && FetchFollows(p, s)
    requires s.flags.hazard ==> s.pipe.d != 0
    requires m.pipe == Shifted(s.pipe, s.flags.hazard) && m.fetch == s.fetch.(source := FromIf)
    requires m.flags.predictSuccess && !m.flags.hazard && m.idEx == s.idEx
    requires m.flags.prediction == (s.flags.prediction && m.pipe != Pipe(0, 0, 0, 0, 0))
    ensures PipeInText(p, ExStage(m).pipe) && Moved(p, s, ExStage(m)) && LatchedX(p, ExStage(m))
  {
    hide AluOutput;
    if m.pipe.x != 0 {
      assert m.flags.prediction == s.flags.prediction;
    }
  }

  lemma BackEndMoves(p: Program, s: State, e: Word)
    requires Kept(p, s, e) && !Mispredicted(s)
    ensures PipeInText(p, BackEnd(s).pipe)
    ensures Moved(p, s, BackEnd(s)) && LatchedX(p, BackEnd(s))
  {
    hide MemStage, WriteBack, Advance, ExStage, Moved, FetchFollows, LatchedD, LatchedX, Awaits;
    MemMoves(s);
    ExMoves(p, s, MemStage(WriteBack(Advance(s))));
  }

  // ID: what it latches, and where it sends the fetch unit.
  lemma Decodes(p: Program, t: State)
    requires PipeInText(p, t.pipe) && LatchedX(p, t) && !t.flags.hazard && t.fetch.source == FromIf
    ensures var r := IdStage(p, t);
      && LatchedD(p, r) && r.exMem == t.exMem && r.pipe == t.pipe
      && r.flags == t.flags.(hazard := r.flags.hazard) && (r.flags.hazard ==> r.pipe.d != 0 && r.exMem.mem.memRead)
      && r.fetch.pc == t.fetch.pc && r.fetch.ifPc == t.fetch.ifPc
      && (if Redirects(p, r) then NextFetch(r.fetch) == RedirectTarget(p, r) && r.fetch.source != FromIf
          else r.fetch == t.fetch)
  {
  }

  // IF: the pc goes to the redirect target, or the next instruction is fetched.
  lemma Fetches(p: Program, s: State, t: State, r: State)
    requires PipeInText(p, s.pipe) && PipeInText(p, t.pipe) && PipeInText(p, r.pipe)
    requires FetchFollows(p, s) && Moved(p, s, t) && r.pipe == t.pipe
    requires s.flags.hazard ==> s.pipe.d != 0
    requires r.flags == t.flags.(hazard := r.flags.hazard) && (r.flags.hazard ==> r.pipe.d != 0)
    requires r.fetch.pc == t.fetch.pc && r.fetch.ifPc == t.fetch.ifPc
    requires if Redirects(p, r) then NextFetch(r.fetch) == RedirectTarget(p, r) && r.fetch.source != FromIf
             else r.fetch == t.fetch
    requires s.flags.hazard ==> !r.flags.hazard
    ensures PipeInText(p, IfStage(p, r).pipe) && FetchFollows(p, IfStage(p, r))
  {
  }

  // Which instruction is now expected, and that it is on its way.
  lemma Continues(p: Program, s: State, t: State, r: State, u: State, e: Word)
    requires PipeInText(p, s.pipe) && PipeInText(p, t.pipe) && FetchFollows(p, s) && Awaits(p, s, e)
    requires Moved(p, s, t) && LatchedX(p, t) && (s.flags.hazard ==> s.pipe.d != 0)
    requires r.exMem == t.exMem && r.pipe == t.pipe && r.flags == t.flags.(hazard := r.flags.hazard)
    requires r.fetch.pc == t.fetch.pc && (r.pipe.d == 0 ==> r.fetch == t.fetch && !r.flags.hazard)
    requires u == Settle(p, IfStage(p, r)) && !Mispredicted(u)
    ensures PipeInText(p, u.pipe) && Awaits(p, u, Expected(p, u, e))
    ensures u.pipe.x != 0 && InText(p, e) ==> u.pipe.x == e
  {
    assert u.pipe == r.pipe.(f := u.pipe.f) && u.exMem == t.exMem && u.flags == r.flags;
    assert r.pipe.d == 0 && InText(p, r.fetch.pc) ==> u.pipe.f == r.fetch.pc;
    assert r.pipe.d == 0 ==> u.fetch.jumpPc == s.fetch.jumpPc;
    hide IfStage, Settle;
  }

  lemma PredictedStep(p: Program, s: State, e: Word)
    requires Kept(p, s, e) && !Mispredicted(s)
    ensures PipeInText(p, Cycle(p, s).pipe)
    ensures Kept(p, Cycle(p, s), Expected(p, Cycle(p, s), e))
    ensures Cycle(p, s).pipe.x != 0 && InText(p, e) ==> Cycle(p, s).pipe.x == e
  {
    hide Advance, WriteBack, MemStage, ExStage, IdStage, IfStage, Settle, FetchFollows, LatchedD, LatchedM, Chosen;
    var t := BackEnd(s);
    BackEndMoves(p, s, e);
    var r := IdStage(p, t);
    Decodes(p, t);
    Fetches(p, s, t, r);
    PipeStaysInText(p, s);
    var u := Cycle(p, s);
    IfKeeps(p, r);
    LatchedMStep(p, s);
    if !Mispredicted(u) {
      Continues(p, s, t, r, u, e);
    }
    WasExpected(p, s, t, u, e);
  }

  lemma IfKeeps(p: Program, r: State)
    requires PipeInText(p, r.pipe)
    ensures PipeInText(p, IfStage(p, r).pipe)
    ensures var u := Settle(p, IfStage(p, r));
      && PipeInText(p, u.pipe) && u.pipe == r.pipe.(f := u.pipe.f) && u.exMem == r.exMem && u.flags == r.flags
      && (LatchedD(p, r) ==> LatchedD(p, u)) && (LatchedX(p, r) ==> LatchedX(p, u))
      && (FetchFollows(p, IfStage(p, r)) ==> FetchFollows(p, u))
  {
  }

  lemma WasExpected(p: Program, s: State, t: State, u: State, e: Word)
    requires PipeInText(p, s.pipe) && Awaits(p, s, e) && Moved(p, s, t) && u.pipe.x == t.pipe.x
    ensures u.pipe.x != 0 && InText(p, e) ==> u.pipe.x == e
  {
  }

  // ---- Whole runs

  lemma StartKept(p: Program, regs: RegFile, mem: Memory)
    ensures Kept(p, Start(regs, mem), TEXT_START)
  {
  }

  // An instruction that has been in EX, and the successor it chose.
  datatype Passed = Passed(pc: Word, next: Word)

  // The instructions that have been in EX in the first n cycles.
  ghost function Path(p: Program, s: State, n: nat): seq<Passed>
    requires PipeInText(p, s.pipe)
  {
    if n == 0 then []
    else
      var t := Run(p, s, n);
      if Run(p, s, n - 1).run && t.pipe.x != 0 then Path(p, s, n - 1) + [Passed(t.pipe.x, Chosen(p, t))]
      else Path(p, s, n - 1)
  }

  // The pcs of the instructions that WB has counted in the first n cycles.
  ghost function WrittenBack(p: Program, s: State, n: nat): seq<Word>
    requires PipeInText(p, s.pipe)
  {
    if n == 0 then []
    else
      var t := Run(p, s, n);
      if Run(p, s, n - 1).run && t.pipe.w != 0 then WrittenBack(p, s, n - 1) + [t.pipe.w]
      else WrittenBack(p, s, n - 1)
  }

  function LastNext(path: seq<Passed>): Word {
    if path == [] then TEXT_START else path[|path| - 1].next
  }

  // Each instruction follows the one before it.
  ghost predicate Follow(p: Program, path: seq<Passed>) {
    && (path != [] ==> path[0].pc == TEXT_START)
    && (forall k {:trigger path[k]} :: 0 < k < |path| ==>
          (path[k].pc == path[k - 1].next <==> InText(p, path[k - 1].next)))
  }

  lemma {:induction false} PathKept(p: Program, regs: RegFile, mem: Memory, n: nat)
    ensures var s := Start(regs, mem);
      Kept(p, Run(p, s, n), LastNext(Path(p, s, n))) && Follow(p, Path(p, s, n))
  {
    hide Kept, Cycle, Start, Chosen;
    var s := Start(regs, mem);
    StartKept(p, regs, mem);
    if n > 0 {
      PathKept(p, regs, mem, n - 1);
      var t, e := Run(p, s, n - 1), LastNext(Path(p, s, n - 1));
      if t.run {
        KeptStep(p, t, e);
        Grows(p, Path(p, s, n - 1), Run(p, s, n));
      }
    }
  }

  lemma Grows(p: Program, path: seq<Passed>, t: State)
    requires Follow(p, path) && PipeInText(p, t.pipe)
    requires t.pipe.x != 0 && InText(p, LastNext(path)) ==> t.pipe.x == LastNext(path)
    ensures t.pipe.x != 0 ==> Follow(p, path + [Passed(t.pipe.x, Chosen(p, t))])
    ensures t.pipe.x != 0 ==> LastNext(path + [Passed(t.pipe.x, Chosen(p, t))]) == Chosen(p, t)
  {
    hide Chosen;
    if t.pipe.x != 0 {
      var longer := path + [Passed(t.pipe.x, Chosen(p, t))];
      forall k | 0 < k < |longer|
        ensures longer[k].pc == longer[k - 1].next <==> InText(p, longer[k - 1].next)
      {
        assert k < |path| ==> longer[k] == path[k];
        assert longer[k - 1] == path[k - 1];
      }
    }
  }

  // In every run of every program, control goes from each instruction that gets past
  // ID to the successor it chose, if and only if that successor is in the text.
  lemma PathConnected(p: Program, regs: RegFile, mem: Memory, n: nat, k: nat)
    requires k < |Path(p, Start(regs, mem), n)|
    ensures var path := Path(p, Start(regs, mem), n);
      && path[0].pc == TEXT_START
      && (k > 0 ==> (path[k].pc == path[k - 1].next <==> InText(p, path[k - 1].next)))
  {
    hide Kept, Start, Path;
    PathKept(p, regs, mem, n);
  }

  // ---- What is squashed leaves no trace

  lemma WbEffect(s: State)
    ensures var a := WriteBack(Advance(s));
      && a.pipe.w == s.pipe.m && a.pipe.m == s.pipe.x && a.mem == s.mem && a.exMem == s.exMem
      && a.retired == s.retired + (if s.pipe.m != 0 then 1 else 0)
      && a.regs == (if s.pipe.m != 0 && s.memWb.wb.regWrite then s.regs[s.memWb.dest := Result(s.memWb)] else s.regs)
  {
  }

  lemma MemEffect(a: State)
    ensures var m := MemStage(a);
      && m.pipe.w == a.pipe.w && m.pipe.m == a.pipe.m && m.retired == a.retired && m.regs == a.regs
      && (m.mem != a.mem ==>
            && a.pipe.m != 0 && a.exMem.mem.memWrite && InMemory(a.exMem.aluOut)
            && m.mem == WriteWord(a.mem, a.exMem.aluOut, a.regs[a.exMem.dest]))
  {
    hide InMemory, ReadWord, WriteWord;
  }

  lemma ExEffect(m: State)
    ensures var x := ExStage(m);
      && x.pipe.w == m.pipe.w && x.pipe.m == m.pipe.m && x.retired == m.retired && x.regs == m.regs && x.mem == m.mem
  {
    hide AluOutput, Executed;
  }

  lemma FrontEffect(p: Program, x: State)
    requires PipeInText(p, x.pipe)
    ensures var t := Settle(p, IfStage(p, IdStage(p, x)));
      && t.pipe.w == x.pipe.w && t.pipe.m == x.pipe.m && t.pipe.d == x.pipe.d
      && t.retired == x.retired && t.mem == x.mem
      && var links := x.pipe.d != 0 && Fetch(p, x.pipe.d).opcode == 0x3;
         t.regs == (if links then x.regs[31 := Next(x.pipe.d)] else x.regs)[0 := 0]
  {
    hide Decoded, Redirect, LoadUseHazard;
  }

  lemma Shifts(p: Program, s: State)
    requires PipeInText(p, s.pipe)
    ensures var t := Cycle(p, s);
      && t.pipe.w == s.pipe.m && t.pipe.m == s.pipe.x
      && t.retired == s.retired + if t.pipe.w != 0 then 1 else 0
  {
    PipeStaysInText(p, s);
    hide Advance, WriteBack, MemStage, ExStage, IdStage, IfStage, Settle;
    WbEffect(s);
    MemEffect(WriteBack(Advance(s)));
    ExEffect(MemStage(WriteBack(Advance(s))));
    FrontEffect(p, BackEnd(s));
  }

  function One(pc: Word): seq<Word> { if pc == 0 then [] else [pc] }

  function Pcs(path: seq<Passed>): (r: seq<Word>)
    ensures |r| == |path|
  {
    if path == [] then [] else Pcs(path[..|path| - 1]) + [path[|path| - 1].pc]
  }

  // Exactly the instructions that pass EX are written back, in the same order: in
  // particular nothing that a misprediction or a jump empties from the pipe.
  lemma {:induction false} WrittenBackIsPath(p: Program, regs: RegFile, mem: Memory, n: nat)
    ensures var s := Start(regs, mem); var t := Run(p, s, n);
      && Pcs(Path(p, s, n)) == WrittenBack(p, s, n) + One(t.pipe.m) + One(t.pipe.x)
      && |WrittenBack(p, s, n)| == t.retired
  {
    hide Cycle, Chosen;
    var s := Start(regs, mem);
    if n > 0 {
      WrittenBackIsPath(p, regs, mem, n - 1);
      var t := Run(p, s, n - 1);
      if t.run {
        Shifts(p, t);
        var u := Run(p, s, n);
        var before := Path(p, s, n - 1);
        if u.pipe.x != 0 {
          assert (before + [Passed(u.pipe.x, Chosen(p, u))])[..|before|] == before;
        }
      }
    }
  }

  lemma {:induction false} PcsAt(path: seq<Passed>, k: nat)
    requires k < |path|
    ensures Pcs(path)[k] == path[k].pc
  {
    if k < |path| - 1 {
      PcsAt(path[..|path| - 1], k);
    }
  }

  // The register file that MEM sees.
  function AfterWb(s: State): RegFile {
    if s.pipe.m != 0 && s.memWb.wb.regWrite then s.regs[s.memWb.dest := Result(s.memWb)] else s.regs
  }

  // The instruction in WB, and only it, changes its destination.
  ghost predicate RetirementWrites(p: Program, s: State, t: State, r: Register)
    requires PipeInText(p, t.pipe)
  {
    t.pipe.w != 0 && Writes(Fetch(p, t.pipe.w)) && Dest(Fetch(p, t.pipe.w)) == r && t.regs[r] == Result(s.memWb)
  }

  ghost predicate Links(p: Program, t: State, r: Register)
    requires PipeInText(p, t.pipe)
  {
    r == 31 && t.pipe.d != 0 && Fetch(p, t.pipe.d).opcode == 0x3 && t.regs[r] == Next(t.pipe.d)
  }

  ghost predicate StoreWrites(p: Program, s: State, t: State)
    requires PipeInText(p, t.pipe)
  {
    && t.pipe.m != 0 && IsStore(Fetch(p, t.pipe.m)) && InMemory(s.exMem.aluOut)
    && t.mem == WriteWord(s.mem, s.exMem.aluOut, AfterWb(s)[Fetch(p, t.pipe.m).rt])
  }

  lemma CycleWrites(p: Program, s: State, e: Word, r: Register)
    requires Kept(p, s, e) && s.run && PipeInText(p, Cycle(p, s).pipe)
    ensures var t := Cycle(p, s);
      && (r != 0 && t.regs[r] != s.regs[r] ==> RetirementWrites(p, s, t, r) || Links(p, t, r))
      && (t.mem != s.mem ==> StoreWrites(p, s, t))
  {
    BackEndInText(p, s);
    hide Advance, WriteBack, MemStage, ExStage, IdStage, IfStage, Settle, WriteWord, Front, LatchedD;
    WbEffect(s);
    MemEffect(WriteBack(Advance(s)));
    ExEffect(MemStage(WriteBack(Advance(s))));
    FrontEffect(p, BackEnd(s));
  }

  lemma InPath(p: Program, regs: RegFile, mem: Memory, n: nat)
    ensures var s := Start(regs, mem); var t := Run(p, s, n);
      && t.retired <= |Path(p, s, n)|
      && (n > 0 && Run(p, s, n - 1).run && t.pipe.w != 0 ==>
            t.retired > 0 && Path(p, s, n)[t.retired - 1].pc == t.pipe.w)
      && (t.pipe.m != 0 ==> t.retired < |Path(p, s, n)| && Path(p, s, n)[t.retired].pc == t.pipe.m)
  {
    hide Cycle, Run, Path;
    var s := Start(regs, mem);
    var t, path := Run(p, s, n), Path(p, s, n);
    WrittenBackIsPath(p, regs, mem, n);
    if n > 0 && Run(p, s, n - 1).run && t.pipe.w != 0 {
      PcsAt(path, t.retired - 1);
    }
    if t.pipe.m != 0 {
      PcsAt(path, t.retired);
    }
  }

  // In every run, a cycle changes a register only to the result of the instruction of
  // the path that it writes back, in that one's destination, or to the link of a jal
  // in ID; and memory only to the store of the path in MEM.
  lemma OnlyRetirementWrites(p: Program, regs: RegFile, mem: Memory, n: nat, r: Register)
    ensures var start := Start(regs, mem);
      var s, t, path := Run(p, start, n), Run(p, start, n + 1), Path(p, start, n + 1);
      && t.retired <= |path|
      && (r != 0 && t.regs[r] != s.regs[r] ==>
            || (t.retired > 0 && path[t.retired - 1].pc == t.pipe.w && RetirementWrites(p, s, t, r))
            || Links(p, t, r))
      && (t.mem != s.mem ==>
            t.retired < |path| && path[t.retired].pc == t.pipe.m && StoreWrites(p, s, t))
  {
    hide Kept, Cycle, Path, RetirementWrites, Links, StoreWrites, Follow;
    var start := Start(regs, mem);
    var s := Run(p, start, n);
    InPath(p, regs, mem, n + 1);
    PathKept(p, regs, mem, n);
    if s.run {
      CycleWrites(p, s, LastNext(Path(p, start, n)), r);
      RetirementHasPc(p, s, Run(p, start, n + 1), r);
    }
  }

  lemma RetirementHasPc(p: Program, s: State, t: State, r: Register)
    requires PipeInText(p, t.pipe)
    ensures RetirementWrites(p, s, t, r) ==> t.pipe.w != 0
    ensures StoreWrites(p, s, t) ==> t.pipe.m != 0
  {
  }

  // That result is what the ALU put out for the instruction, or the word that was in
  // memory at that address.
  lemma ResultOfPath(p: Program, regs: RegFile, mem: Memory, n: nat)
    requires var start := Start(regs, mem);
      Run(p, start, n).run && Run(p, start, n + 1).run && Run(p, start, n + 1).pipe.m != 0
    ensures var start := Start(regs, mem);
      var s, t := Run(p, start, n), Run(p, start, n + 1);
      var i := Fetch(p, t.pipe.m);
      && s.pipe.x == t.pipe.m
      && (IsLoad(i) ==> InMemory(s.exMem.aluOut))
      && (Writes(i) ==> Result(t.memWb) == if IsLoad(i) then ReadWord(s.mem, s.exMem.aluOut) else s.exMem.aluOut)
  {
    hide Cycle, Path, Follow, Front, LatchedD;
    var start := Start(regs, mem);
    var s := Run(p, start, n);
    PathKept(p, regs, mem, n);
    PathKept(p, regs, mem, n + 1);
    Shifts(p, s);
    ResultLatched(p, s);
    assert Run(p, start, n + 1) == Cycle(p, s);
  }

  lemma ResultLatched(p: Program, s: State)
    requires PipeInText(p, s.pipe) && !s.fault && s.pipe.x != 0
    ensures var t := Cycle(p, s);
      && t.pipe.m == s.pipe.x
      && (!t.fault ==>
            && (s.exMem.mem.memRead ==> InMemory(s.exMem.aluOut) && t.memWb.memOut == ReadWord(s.mem, s.exMem.aluOut))
            && (!s.exMem.mem.memRead ==> t.memWb.aluOut == s.exMem.aluOut))
  {
    BackEndInText(p, s);
    MemReads(s);
    hide Advance, WriteBack, MemStage, ExStage, IdStage, IfStage, Settle;
    KeepsMem(p, MemStage(WriteBack(Advance(s))));
  }

  lemma MemReads(s: State)
    requires s.pipe.x != 0
    ensures var m, a := MemStage(WriteBack(Advance(s))), s.exMem.aluOut;
      && m.pipe.m == s.pipe.x
      && (!m.fault ==>
            && (s.exMem.mem.memRead ==> InMemory(a) && m.memWb.memOut == ReadWord(s.mem, a))
            && (!s.exMem.mem.memRead ==> m.memWb.aluOut == a))
  {
    hide ReadWord, WriteWord, InMemory;
  }

  // The successor that a jr chooses is the register that the decoder read for it.
  lemma JumpsToRegister(p: Program, regs: RegFile, mem: Memory, n: nat)
    requires var start := Start(regs, mem);
      Run(p, start, n).run && Run(p, start, n + 1).pipe.x != 0
    ensures var start := Start(regs, mem);
      var s, t := Run(p, start, n), Run(p, start, n + 1);
      var i := Fetch(p, t.pipe.x);
      IsJumpRegister(i) ==>
        && s.pipe.d == t.pipe.x && Chosen(p, t) == s.idEx.reg1
        && (i.rs != 0 ==> s.idEx.reg1 == s.regs[i.rs])
  {
    hide Cycle, Path, Follow, LatchedX, LatchedM;
    var start := Start(regs, mem);
    var s := Run(p, start, n);
    PathKept(p, regs, mem, n);
    JumpKept(p, s, LastNext(Path(p, start, n)));
    assert Run(p, start, n + 1) == Cycle(p, s);
  }

  lemma JumpKept(p: Program, s: State, e: Word)
    requires Kept(p, s, e) && PipeInText(p, Cycle(p, s).pipe) && Cycle(p, s).pipe.x != 0
    ensures s.pipe.d == Cycle(p, s).pipe.x
    ensures IsJumpRegister(Fetch(p, s.pipe.d)) ==> Cycle(p, s).fetch.jumpPc == s.fetch.jumpPc
  {
    hide Advance, WriteBack, MemStage, ExStage, IdStage, IfStage, Settle, FetchFollows, LatchedD, LatchedX, LatchedM;
    if Mispredicted(s) {
      SquashStep(p, s, e);
    } else {
      BackEndMoves(p, s, e);
      KeepsJump(p, BackEnd(s));
    }
  }

  lemma KeepsJump(p: Program, x: State)
    requires PipeInText(p, x.pipe)
    ensures var t := Settle(p, IfStage(p, IdStage(p, x)));
      t.pipe.x == x.pipe.x && (x.pipe.d == 0 ==> t.fetch.jumpPc == x.fetch.jumpPc)
  {
  }
}

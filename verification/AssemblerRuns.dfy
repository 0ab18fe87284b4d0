// Assembled programs on the sequential simulator: branches and jumps reach their
// labels, and la loads its address.
module AssemblerRuns {
  import opened Mips
  import S = Sequential
  import opened AluAgreement
  import opened Encoding
  import opened Assembler

  // The words that the assembler emits for a program, and what the simulator loads.
  function LabelList(program: seq<Statement>, data: seq<Entry>): seq<Entry>
    requires AllWellFormed(program)
  {
    FirstPass(Tokens(program), data, First([], TEXT)).labels
  }

  // The words of statement k.
  function Emitted(program: seq<Statement>, rd: Reader, data: seq<Entry>, k: nat): (r: seq<Format>)
    requires AllWellFormed(program) && k < |program|
    ensures |r| == Size(program[k], data)
  {
    FormatsSize(program[k], rd, LabelList(program, data), data, AddressOf(program, data, k));
    FormatsOf(program[k], rd, LabelList(program, data), data, AddressOf(program, data, k))
  }

  function Assembled(program: seq<Statement>, rd: Reader, data: seq<Entry>): seq<Format>
    requires AllWellFormed(program)
  {
    SecondPass(Tokens(program), rd, LabelList(program, data), data, TEXT)
  }

  // Entry k of the instruction table is what word k decodes to.
  predicate Reads(p: seq<Instruction>, words: seq<Format>, k: nat)
    requires k < |p| == |words|
  {
    p[k] == Decode(Encode(words[k]))
  }

  ghost predicate LoadedFrom(p: seq<Instruction>, words: seq<Format>) {
    |p| == |words| && forall k {:trigger Reads(p, words, k)} :: 0 <= k < |p| ==> Reads(p, words, k)
  }

  lemma ReadsMeaning(p: seq<Instruction>, words: seq<Format>, k: nat)
    requires LoadedFrom(p, words) && k < |p| && Proper(words[k])
    ensures p[k] == Meant(words[k])
  {
    hide Decode, Encode, Proper, Meant;
    assert Reads(p, words, k);
    DecodeEncode(words[k]);
  }

  // The address of statement k.
  function AddressOf(program: seq<Statement>, data: seq<Entry>, k: nat): int
    requires AllWellFormed(program) && k <= |program|
  {
    TEXT + 4 * Offset(program, data, k)
  }

  // The j-th word of statement k is at its address and has its meaning.
  lemma WordAt(program: seq<Statement>, rd: Reader, data: seq<Entry>, p: Program, k: nat, j: nat, w: Format)
    returns (at: Word)
    requires AllWellFormed(program) && k < |program| && LoadedFrom(p, Assembled(program, rd, data))
    requires j < Size(program[k], data) && w == Emitted(program, rd, data, k)[j]
    ensures at == AddressOf(program, data, k) + 4 * j && InText(p, at)
    ensures Proper(w) ==> Fetch(p, at) == Meant(w)
  {
    hide FirstPass, SecondPass, Tokens, FormatsOf, Size, Offset, Proper, Meant, LoadedFrom;
    var labels := LabelList(program, data);
    SecondPassLayout(program, rd, labels, data, TEXT, k);
    FormatsSize(program[k], rd, labels, data, AddressOf(program, data, k));
    LoadedSize(p, Assembled(program, rd, data));
    var words, o := SecondPass(Tokens(program), rd, labels, data, TEXT), Offset(program, data, k);
    var f := FormatsOf(program[k], rd, labels, data, TEXT + 4 * o);
    assert words[o..][..|f|][j] == words[o + j] == f[j];
    assert (TEXT + 4 * o + 4 * j - TEXT_START) / 4 == o + j;
    at := TEXT + 4 * o + 4 * j;
    if Proper(f[j]) {
      ReadsMeaning(p, words, o + j);
    }
  }

  lemma LoadedSize(p: seq<Instruction>, words: seq<Format>)
    requires LoadedFrom(p, words)
    ensures |p| == |words|
  {
  }

  lemma FormatsSize(s: Statement, rd: Reader, labels: seq<Entry>, data: seq<Entry>, address: int)
    requires WellFormed(s)
    ensures |FormatsOf(s, rd, labels, data, address)| == Size(s, data)
  {
    hide FindAddress;
  }

  lemma LabelInText(program: seq<Statement>, rd: Reader, data: seq<Entry>, p: Program, t: nat)
    requires AllWellFormed(program) && t <= |program| && LoadedFrom(p, Assembled(program, rd, data))
    ensures TEXT <= AddressOf(program, data, t) <= TEXT + REGION_SIZE
  {
    hide FirstPass, SecondPass, Tokens, FormatsOf, Size, Offset, LoadedFrom;
    var labels := LabelList(program, data);
    LoadedSize(p, Assembled(program, rd, data));
    SecondPassLayout(program, rd, labels, data, TEXT, t);
  }

  // ---- Branches

  lemma BranchField(here: int, there: int)
    requires 0 <= here && here + 4 < TWO_32 && 0 <= there < TWO_32 && (there - (here + 4)) % 4 == 0
    requires -0x8000 <= (there - (here + 4)) / 4 < 0x8000
    ensures BranchTarget(here, (there - (here + 4)) / 4 % 0x1_0000) == there
  {
    var d := (there - (here + 4)) / 4;
    assert AsInt(SignEx(d % 0x1_0000)) == d;
  }

  // A branch to a label that is near enough goes there exactly when it is taken.
  lemma BranchLands(program: seq<Statement>, rd: Reader, data: seq<Entry>, p: Program, m: S.Machine, k: nat, t: nat)
    requires AllWellFormed(program) && k < |program| && LoadedFrom(p, Assembled(program, rd, data))
    requires program[k].Instr? && program[k].num in {11, 12} && |program[k].args| == 3
    requires Defines(program, t, program[k].args[2])
    requires m.pc == AddressOf(program, data, k)
    requires -0x8000 <= (AddressOf(program, data, t) - AddressOf(program, data, k)) / 4 - 1 < 0x8000
    ensures InText(p, m.pc)
    ensures var i := Fetch(p, m.pc);
      && IsBranch(i)
      && S.Step(p, m).pc == (if S.Taken(i, m.regs[i.rs], m.regs[i.rt]) then AddressOf(program, data, t) else Next(m.pc))
  {
    hide FirstPass, SecondPass, Tokens, FormatsOf, Offset, BranchTarget, LoadedFrom, FindAddress;
    var labels, there := LabelList(program, data), AddressOf(program, data, t);
    var s := program[k];
    var at := WordAt(program, rd, data, p, k, 0, Emitted(program, rd, data, k)[0]);
    LabelAddress(program, data, t, s.args[2]);
    LabelInText(program, rd, data, p, t);
    BranchWord(s, rd, labels, data, m.pc, there);
    BranchField(m.pc, there);
  }

  lemma BranchWord(s: Statement, rd: Reader, labels: seq<Entry>, data: seq<Entry>, here: int, there: int)
    requires WellFormed(s) && s.Instr? && s.num in {11, 12} && FindAddress(labels, s.args[2]) == there
    ensures FormatsOf(s, rd, labels, data, here)
         == [IFormat(OPCODES[s.num], rd.reg(s.args[0]), rd.reg(s.args[1]), (there - (here + 4)) / 4 % 0x1_0000)]
  {
  }

  // ---- Jumps

  // A jump reaches its label; jal also keeps the address after it.
  lemma JumpLands(program: seq<Statement>, rd: Reader, data: seq<Entry>, p: Program, m: S.Machine, k: nat, t: nat)
    requires AllWellFormed(program) && k < |program| && LoadedFrom(p, Assembled(program, rd, data))
    requires program[k].Instr? && program[k].num in {18, 19} && |program[k].args| == 1
    requires Defines(program, t, program[k].args[0])
    requires m.pc == AddressOf(program, data, k)
    ensures InText(p, m.pc)
    ensures S.Step(p, m).pc == AddressOf(program, data, t)
    ensures S.Step(p, m).regs == if program[k].num == 19 then m.regs[31 := Next(m.pc)] else m.regs
  {
    hide FirstPass, SecondPass, Tokens, FormatsOf, Offset, LoadedFrom, FindAddress;
    var labels, there := LabelList(program, data), AddressOf(program, data, t);
    var at := WordAt(program, rd, data, p, k, 0, Emitted(program, rd, data, k)[0]);
    LabelAddress(program, data, t, program[k].args[0]);
    LabelInText(program, rd, data, p, t);
    JumpWord(program[k], rd, labels, data, m.pc, there);
    JumpField(m.pc, there);
    hide JumpTarget;
  }

  lemma JumpWord(s: Statement, rd: Reader, labels: seq<Entry>, data: seq<Entry>, here: int, there: int)
    requires WellFormed(s) && s.Instr? && s.num in {18, 19} && FindAddress(labels, s.args[0]) == there
    ensures FormatsOf(s, rd, labels, data, here) == [JFormat(OPCODES[s.num], there % 0x1000_0000 / 4)]
  {
  }

  lemma JumpField(here: int, there: int)
    requires TEXT <= here < TEXT + REGION_SIZE && TEXT <= there <= TEXT + REGION_SIZE && (there - TEXT) % 4 == 0
    ensures JumpTarget(Next(here), there % 0x1000_0000 / 4 % 0x400_0000) == there
  {
  }

  // ---- la

  lemma {:induction false} ShiftIsProduct(a: Word, k: Register)
    ensures ShiftLeft(a, k) == a * Pow2(k) % TWO_32
    decreases k
  {
    if k > 0 {
      var b := (2 * a) % TWO_32;
      ShiftIsProduct(b, k - 1);
      var m := Pow2(k - 1);
      assert a * Pow2(k) == 2 * a * m;
      ModProduct(2 * a, m);
    }
  }

  lemma ModProduct(x: nat, m: nat)
    ensures x % TWO_32 * m % TWO_32 == x * m % TWO_32
  {
    var q, r := x / TWO_32, x % TWO_32;
    assert x == TWO_32 * q + r;
    assert x * m == TWO_32 * (q * m) + r * m;
    Remainder(x * m, TWO_32, q * m + r * m / TWO_32, r * m % TWO_32);
  }

  lemma UpperHalf(imm: Half)
    ensures ShiftLeft(SignEx(imm), 16) == imm * 0x1_0000
  {
    Widths();
    ShiftIsProduct(SignEx(imm), 16);
    if imm >= 0x8000 {
      assert SignEx(imm) * 0x1_0000 == TWO_32 * 0xffff + imm * 0x1_0000;
      Remainder(SignEx(imm) * 0x1_0000, TWO_32, 0xffff, imm * 0x1_0000);
    }
  }

  // Low bits that only the second operand has are kept.
  lemma {:induction false} OrAbove(h: nat, u: nat, l: nat, j: nat, n: nat)
    requires j <= n && l < Pow2(j) && h < Pow2(n - j) && u < Pow2(n - j)
    ensures h * Pow2(j) < Pow2(n) && u * Pow2(j) + l < Pow2(n)
    ensures BitOr(h * Pow2(j), u * Pow2(j) + l, n) == BitOr(h, u, n - j) * Pow2(j) + l
    decreases j
  {
    InWidth(h, 0, j, n);
    InWidth(u, l, j, n);
    if j == 0 {
      assert Pow2(0) == 1 && l == 0 && h * 1 == h && u * 1 == u;
    } else {
      OrAbove(h, u, l / 2, j - 1, n - 1);
      var m := Pow2(j - 1);
      Doubled(h, m);
      Doubled(u, m);
      Doubled(BitOr(h, u, n - j), m);
      OrDoubles(h * m, u * m + l / 2, l % 2, n);
      assert Pow2(j) == 2 * m && n - 1 - (j - 1) == n - j;
      hide BitOr;
    }
  }

  lemma Doubled(x: nat, m: nat)
    ensures x * (2 * m) == 2 * (x * m)
  {
  }

  lemma {:induction false} PowSum(j: nat, n: nat)
    requires j <= n
    ensures Pow2(n) == Pow2(n - j) * Pow2(j)
    decreases j
  {
    if j > 0 {
      PowSum(j - 1, n - 1);
      Doubled(Pow2(n - j), Pow2(j - 1));
    }
  }

  lemma InWidth(h: nat, l: nat, j: nat, n: nat)
    requires j <= n && l < Pow2(j) && h < Pow2(n - j)
    ensures h * Pow2(j) + l < Pow2(n)
  {
    PowSum(j, n);
    var m, k := Pow2(j), Pow2(n - j);
    assert (h + 1) * m <= k * m;
    assert (h + 1) * m == h * m + m;
  }

  lemma OrDoubles(x: nat, y: nat, b: nat, n: nat)
    requires n > 0 && x < Pow2(n - 1) && y < Pow2(n - 1) && b <= 1
    ensures 2 * x < Pow2(n) && 2 * y + b < Pow2(n)
    ensures BitOr(2 * x, 2 * y + b, n) == 2 * BitOr(x, y, n - 1) + b
  {
    assert 2 * x / 2 == x && (2 * y + b) / 2 == y;
  }

  lemma OrHalves(h: Half, l: Half)
    ensures l < 0x8000 ==> Or(h * 0x1_0000, SignEx(l)) == h * 0x1_0000 + l
    ensures l >= 0x8000 ==> Or(h * 0x1_0000, SignEx(l)) == 0xffff_0000 + l
  {
    Widths();
    Pow2Of32();
    var u := if l < 0x8000 then 0 else 0xffff;
    OrAbove(h, u, l, 16, 32);
    OrWithZero(h, 16);
    OrWithOnes(h, 16);
    hide BitOr, Pow2;
  }

  // The one or two words of la leave the address of its label in the register, unless
  // the low half of the address has its top bit set: the simulator's ori extends the
  // sign of its operand.
  lemma LaLoads(program: seq<Statement>, rd: Reader, data: seq<Entry>, p: Program, m: S.Machine, k: nat)
    requires AllWellFormed(program) && k < |program| && LoadedFrom(p, Assembled(program, rd, data))
    requires program[k].Instr? && program[k].num == LA && |program[k].args| == 2
    requires m.pc == AddressOf(program, data, k)
    ensures var address, r := FindAddress(data, program[k].args[1]), rd.reg(program[k].args[0]) % 32;
      var after := S.Run(p, m, Size(program[k], data));
      && after.pc == AddressOf(program, data, k) + 4 * Size(program[k], data)
      && (after.regs[r] == address % TWO_32 <==> address % 0x1_0000 < 0x8000 || address / 0x1_0000 % 0x1_0000 == 0xffff)
  {
    hide FirstPass, SecondPass, Tokens, FormatsOf, Offset, LoadedFrom, FindAddress, SignEx, ShiftLeft, Or;
    var address, r := FindAddress(data, program[k].args[1]), rd.reg(program[k].args[0]) % 32;
    var high: Half, low: Half := address / 0x1_0000 % 0x1_0000, address % 0x1_0000;
    var at := WordAt(program, rd, data, p, k, 0, Emitted(program, rd, data, k)[0]);
    LaWord(program[k], rd, LabelList(program, data), data, m.pc);
    UpperHalf(high);
    OrHalves(high, low);
    AddressHalves(address);
    LabelInText(program, rd, data, p, k);
    var one := S.Run(p, m, 1);
    assert S.Run(p, m, 0) == m;
    assert one == S.Step(p, m) && one.pc == m.pc + 4 && one.regs == m.regs[r := high * 0x1_0000];
    if low != 0 {
      var next := WordAt(program, rd, data, p, k, 1, Emitted(program, rd, data, k)[1]);
      var two := S.Run(p, m, 2);
      assert two == S.Step(p, one) && two.pc == m.pc + 8;
    }
  }

  lemma LaWord(s: Statement, rd: Reader, labels: seq<Entry>, data: seq<Entry>, here: int)
    requires WellFormed(s) && s.Instr? && s.num == LA
    ensures var address, r := FindAddress(data, s.args[1]), rd.reg(s.args[0]);
      var f := FormatsOf(s, rd, labels, data, here);
      && Size(s, data) == |f| == (if address % 0x1_0000 == 0 then 1 else 2)
      && f[0] == IFormat(0xf, 0, r, address / 0x1_0000 % 0x1_0000)
      && (address % 0x1_0000 != 0 ==> f[1] == IFormat(0xd, r, r, address % 0x1_0000))
  {
  }

  lemma AddressHalves(address: int)
    ensures address % TWO_32 == address / 0x1_0000 % 0x1_0000 * 0x1_0000 + address % 0x1_0000
  {
    var h, l := address / 0x1_0000, address % 0x1_0000;
    Remainder(address, TWO_32, h / 0x1_0000, h % 0x1_0000 * 0x1_0000 + l);
  }
}

// The two passes of the assembler over the tokens of a source file, and what the
// labels of the first mean to the words of the second.
module Assembler {
  import opened Mips
  import opened Encoding

  // ---- Mnemonics

  const MNEMONICS: seq<string> :=
    ["add", "and", "jr", "nor", "or", "slt", "sll", "srl", "sub",
     "addi", "andi", "beq", "bne", "lui", "lw", "ori", "slti", "sw",
     "j", "jal", "la"]

  const OPCODES: seq<nat> := [0, 0, 0, 0, 0, 0, 0, 0, 0, 0x8, 0xc, 0x4, 0x5, 0xf, 0x23, 0xd, 0xa, 0x2b, 0x2, 0x3, 0xf]

  const FUNCTIONS: seq<nat> := [0x20, 0x24, 0x8, 0x27, 0x25, 0x2a, 0, 0x2, 0x22]

  const LA := 20

  // check_instruction
  function Check(s: string, i: nat): (r: int)
    requires i <= 21
    ensures r == -1 || i <= r < 21
    decreases 21 - i
  {
    if i == 21 then -1 else if s == MNEMONICS[i] then i else Check(s, i + 1)
  }

  // The operands that the second pass reads after a mnemonic.
  function Operands(num: nat): nat {
    if num == 2 || num == 18 || num == 19 then 1
    else if num == 13 || num == 14 || num == 17 || num == LA then 2
    else 3
  }

  // ---- Labels and data

  datatype Entry = Entry(name: string, value: int, address: int)

  // findAddress
  function FindAddress(list: seq<Entry>, name: string): int {
    if list == [] then -1 else if list[0].name == name then list[0].address else FindAddress(list[1..], name)
  }

  predicate IsLabel(token: string) { token != [] && token[|token| - 1] == ':' }

  // la takes one word if the low half of the address is zero, and two otherwise.
  function LaWords(address: int): nat { if address % 0x1_0000 == 0 then 1 else 2 }

  // ---- The first pass, over the tokens after .text

  datatype First = First(labels: seq<Entry>, pointer: int)

  function FirstPass(tokens: seq<string>, data: seq<Entry>, st: First): First
    decreases |tokens|
  {
    if tokens == [] then st
    else
      var t := tokens[0];
      if IsLabel(t) then
        FirstPass(tokens[1..], data, First(st.labels + [Entry(t[..|t| - 1], 0, st.pointer)], st.pointer))
      else if Check(t, 0) == LA && |tokens| >= 3 then
        FirstPass(tokens[3..], data, st.(pointer := st.pointer + 4 * LaWords(FindAddress(data, tokens[2]))))
      else if Check(t, 0) >= 0 then FirstPass(tokens[1..], data, st.(pointer := st.pointer + 4))
      else FirstPass(tokens[1..], data, st)
  }

  // ---- The second pass

  // How operands are read: strtol and the splitting of "4($2)" at the bracket.
  datatype Reader = Reader(reg: string -> int, number: string -> int, offset: string -> int, base: string -> int)

  // What one mnemonic with its operands stands for; pc is the address after its first word.
  function Formats(num: nat, args: seq<string>, rd: Reader, labels: seq<Entry>, data: seq<Entry>, pc: int): seq<Format>
    requires num <= LA && |args| == Operands(num)
  {
    if num == 2 then [RFormat(0, rd.reg(args[0]), 0, 0, 0, FUNCTIONS[num])]
    else if num == 6 || num == 7 then
      [RFormat(0, 0, rd.reg(args[1]), rd.reg(args[0]), rd.number(args[2]), FUNCTIONS[num])]
    else if num < 9 then
      [RFormat(0, rd.reg(args[1]), rd.reg(args[2]), rd.reg(args[0]), 0, FUNCTIONS[num])]
    else if num == 11 || num == 12 then
      [IFormat(OPCODES[num], rd.reg(args[0]), rd.reg(args[1]), (FindAddress(labels, args[2]) - pc) / 4 % 0x1_0000)]
    else if num == 13 then [IFormat(OPCODES[num], 0, rd.reg(args[0]), rd.number(args[1]))]
    else if num == 14 || num == 17 then
      [IFormat(OPCODES[num], rd.base(args[1]), rd.reg(args[0]), rd.offset(args[1]))]
    else if num < 18 then [IFormat(OPCODES[num], rd.reg(args[1]), rd.reg(args[0]), rd.number(args[2]))]
    else if num < 20 then [JFormat(OPCODES[num], FindAddress(labels, args[0]) % 0x1000_0000 / 4)]
    else
      var address := FindAddress(data, args[1]);
      var lui := IFormat(OPCODES[13], 0, rd.reg(args[0]), address / 0x1_0000 % 0x1_0000);
      if address % 0x1_0000 == 0 then [lui]
      else [lui, IFormat(OPCODES[15], rd.reg(args[0]), rd.reg(args[0]), address % 0x1_0000)]
  }

  function SecondPass(tokens: seq<string>, rd: Reader, labels: seq<Entry>, data: seq<Entry>, pc: int): seq<Format>
    decreases |tokens|
  {
    if tokens == [] then []
    else
      var num := Check(tokens[0], 0);
      if IsLabel(tokens[0]) || num == -1 || |tokens| <= Operands(num) then SecondPass(tokens[1..], rd, labels, data, pc)
      else
        var words := Formats(num, tokens[1..1 + Operands(num)], rd, labels, data, pc + 4);
        words + SecondPass(tokens[1 + Operands(num)..], rd, labels, data, pc + 4 * |words|)
  }

  // ---- Programs as statements

  datatype Statement = Label(name: string) | Instr(num: nat, args: seq<string>)

  // An operand that the first pass passes over.
  predicate Plain(token: string) { !IsLabel(token) && Check(token, 0) == -1 }

  predicate WellFormed(s: Statement) {
    s.Instr? ==>
      && s.num <= LA && |s.args| == Operands(s.num)
      && (s.num != LA ==> forall a :: a in s.args ==> Plain(a))
  }

  predicate AllWellFormed(program: seq<Statement>) { forall s :: s in program ==> WellFormed(s) }

  function TokensOf(s: Statement): seq<string>
    requires WellFormed(s)
  {
    match s
    case Label(name) => [name + ":"]
    case Instr(num, args) => [MNEMONICS[num]] + args
  }

  function Tokens(program: seq<Statement>): seq<string>
    requires AllWellFormed(program)
  {
    if program == [] then [] else TokensOf(program[0]) + Tokens(program[1..])
  }

  // The words that a statement takes.
  function Size(s: Statement, data: seq<Entry>): nat
    requires WellFormed(s)
  {
    match s
    case Label(_) => 0
    case Instr(num, args) => if num == LA then LaWords(FindAddress(data, args[1])) else 1
  }

  // The words before statement k.
  function Offset(program: seq<Statement>, data: seq<Entry>, k: nat): nat
    requires AllWellFormed(program) && k <= |program|
  {
    if k == 0 then 0 else Size(program[0], data) + Offset(program[1..], data, k - 1)
  }

  // ---- Reading one statement

  lemma MnemonicsDiffer(num: nat)
    requires num <= LA
    ensures Check(MNEMONICS[num], 0) == num && !IsLabel(MNEMONICS[num])
  {
    hide IsLabel;
    Checked(num, 0);
    NotLabel(num);
  }

  lemma NotLabel(num: nat)
    requires num <= LA
    ensures !IsLabel(MNEMONICS[num])
  {
  }

  lemma {:induction false} Checked(num: nat, i: nat)
    requires i <= num <= LA
    ensures Check(MNEMONICS[num], i) == num
    decreases num - i
  {
    if i < num {
      Unequal(i, num);
      Checked(num, i + 1);
    }
  }

  lemma Unequal(i: nat, k: nat)
    requires i < k <= LA
    ensures MNEMONICS[i] != MNEMONICS[k]
  {
  }

  function LabelOf(s: Statement, address: int): seq<Entry> {
    if s.Label? then [Entry(s.name, 0, address)] else []
  }

  lemma {:induction false} SkipsOperands(args: seq<string>, rest: seq<string>, data: seq<Entry>, st: First)
    requires forall a :: a in args ==> Plain(a)
    ensures FirstPass(args + rest, data, st) == FirstPass(rest, data, st)
  {
    if args == [] {
      assert args + rest == rest;
    } else {
      assert (args + rest)[1..] == args[1..] + rest;
      assert args[0] in args;
      SkipsOperands(args[1..], rest, data, st);
    }
  }

  lemma FirstPassStatement(s: Statement, rest: seq<string>, data: seq<Entry>, st: First)
    requires WellFormed(s)
    ensures FirstPass(TokensOf(s) + rest, data, st)
         == FirstPass(rest, data, First(st.labels + LabelOf(s, st.pointer), st.pointer + 4 * Size(s, data)))
  {
    hide FirstPass, Check, IsLabel, FindAddress, LaWords;
    match s
    case Label(name) => FirstPassLabel(name, rest, data, st);
    case Instr(num, args) =>
      FirstPassInstr(num, args, rest, data, st);
      assert st.labels + [] == st.labels;
  }

  lemma FirstPassLabel(name: string, rest: seq<string>, data: seq<Entry>, st: First)
    ensures FirstPass([name + ":"] + rest, data, st)
         == FirstPass(rest, data, First(st.labels + [Entry(name, 0, st.pointer)], st.pointer))
  {
    hide Check, FindAddress, LaWords;
    var tokens := [name + ":"] + rest;
    assert tokens[0] == name + ":" && tokens[1..] == rest;
    assert (name + ":")[..|name + ":"| - 1] == name;
  }

  lemma FirstPassInstr(num: nat, args: seq<string>, rest: seq<string>, data: seq<Entry>, st: First)
    requires num <= LA && |args| == Operands(num)
    requires num != LA ==> forall a :: a in args ==> Plain(a)
    ensures FirstPass(([MNEMONICS[num]] + args) + rest, data, st)
         == FirstPass(rest, data,
                      st.(pointer := st.pointer + 4 * if num == LA then LaWords(FindAddress(data, args[1])) else 1))
  {
    hide Check, IsLabel, FindAddress, LaWords;
    MnemonicsDiffer(num);
    var tokens := ([MNEMONICS[num]] + args) + rest;
    assert tokens[0] == MNEMONICS[num] && tokens[1..] == args + rest;
    if num == LA {
      assert tokens[3..] == rest && tokens[2] == args[1];
    } else {
      hide Operands;
      SkipsOperands(args, rest, data, st.(pointer := st.pointer + 4));
    }
  }

  // The words of a statement at an address.
  function FormatsOf(s: Statement, rd: Reader, labels: seq<Entry>, data: seq<Entry>, address: int): seq<Format>
    requires WellFormed(s)
  {
    match s
    case Label(_) => []
    case Instr(num, args) => Formats(num, args, rd, labels, data, address + 4)
  }

  lemma SecondPassStatement(s: Statement, rest: seq<string>, rd: Reader, labels: seq<Entry>, data: seq<Entry>, pc: int)
    requires WellFormed(s)
    ensures |FormatsOf(s, rd, labels, data, pc)| == Size(s, data)
    ensures SecondPass(TokensOf(s) + rest, rd, labels, data, pc)
         == FormatsOf(s, rd, labels, data, pc) + SecondPass(rest, rd, labels, data, pc + 4 * Size(s, data))
  {
    hide SecondPass, Formats, Check, IsLabel, FindAddress, LaWords;
    match s
    case Label(name) => SecondPassLabel(name, rest, rd, labels, data, pc);
    case Instr(num, args) =>
      FormatsCount(num, args, rd, labels, data, pc + 4);
      SecondPassInstr(num, args, rest, rd, labels, data, pc);
  }

  lemma SecondPassLabel(name: string, rest: seq<string>, rd: Reader, labels: seq<Entry>, data: seq<Entry>, pc: int)
    ensures SecondPass([name + ":"] + rest, rd, labels, data, pc) == [] + SecondPass(rest, rd, labels, data, pc)
  {
    var tokens := [name + ":"] + rest;
    assert tokens[0] == name + ":" && tokens[1..] == rest;
    hide Check, Formats, Operands;
    assert [] + SecondPass(rest, rd, labels, data, pc) == SecondPass(rest, rd, labels, data, pc);
  }

  lemma SecondPassInstr(num: nat, args: seq<string>, rest: seq<string>, rd: Reader, labels: seq<Entry>,
                        data: seq<Entry>, pc: int)
    requires num <= LA && |args| == Operands(num)
    ensures var words := Formats(num, args, rd, labels, data, pc + 4);
      SecondPass(([MNEMONICS[num]] + args) + rest, rd, labels, data, pc)
      == words + SecondPass(rest, rd, labels, data, pc + 4 * |words|)
  {
    hide Check, IsLabel, Formats, Operands;
    MnemonicsDiffer(num);
    var tokens := ([MNEMONICS[num]] + args) + rest;
    assert tokens[0] == MNEMONICS[num] && tokens[1..1 + |args|] == args && tokens[1 + |args|..] == rest;
  }

  lemma FormatsCount(num: nat, args: seq<string>, rd: Reader, labels: seq<Entry>, data: seq<Entry>, pc: int)
    requires num <= LA && |args| == Operands(num)
    ensures |Formats(num, args, rd, labels, data, pc)| == if num == LA then LaWords(FindAddress(data, args[1])) else 1
  {
  }

  // ---- Whole programs

  function LabelsOf(program: seq<Statement>, data: seq<Entry>, address: int): seq<Entry>
    requires AllWellFormed(program)
  {
    if program == [] then []
    else LabelOf(program[0], address) + LabelsOf(program[1..], data, address + 4 * Size(program[0], data))
  }

  // The first pass puts every label at the address of the statement after it.
  lemma {:induction false} FirstPassLayout(program: seq<Statement>, data: seq<Entry>, st: First)
    requires AllWellFormed(program)
    ensures FirstPass(Tokens(program), data, st)
         == First(st.labels + LabelsOf(program, data, st.pointer), st.pointer + 4 * Offset(program, data, |program|))
    decreases program
  {
    hide FirstPass, Size, WellFormed, LabelOf;
    if program == [] {
      assert st.labels + [] == st.labels;
      EmptyFirst(data, st);
    } else {
      var s, rest := program[0], program[1..];
      var next := First(st.labels + LabelOf(s, st.pointer), st.pointer + 4 * Size(s, data));
      FirstPassSplit(program, data, st);
      FirstPassLayout(rest, data, next);
      hide Tokens;
      assert st.labels + (LabelOf(s, st.pointer) + LabelsOf(rest, data, next.pointer))
          == next.labels + LabelsOf(rest, data, next.pointer);
    }
  }

  lemma EmptyFirst(data: seq<Entry>, st: First)
    ensures FirstPass(Tokens([]), data, st) == st
  {
  }

  lemma FirstPassSplit(program: seq<Statement>, data: seq<Entry>, st: First)
    requires AllWellFormed(program) && program != []
    ensures FirstPass(Tokens(program), data, st)
         == FirstPass(Tokens(program[1..]), data,
                      First(st.labels + LabelOf(program[0], st.pointer), st.pointer + 4 * Size(program[0], data)))
  {
    hide FirstPass, Size, TokensOf, LabelOf;
    FirstPassStatement(program[0], Tokens(program[1..]), data, st);
  }

  // The second pass puts the words of every statement where the first pass says.
  lemma {:induction false} SecondPassLayout(program: seq<Statement>, rd: Reader, labels: seq<Entry>,
                                            data: seq<Entry>, pc: int, k: nat)
    requires AllWellFormed(program) && k <= |program|
    ensures var words := SecondPass(Tokens(program), rd, labels, data, pc);
      && |words| == Offset(program, data, |program|)
      && Offset(program, data, k) <= |words|
      && (k < |program| ==>
            var f := FormatsOf(program[k], rd, labels, data, pc + 4 * Offset(program, data, k));
            Offset(program, data, k) + |f| <= |words| && words[Offset(program, data, k)..][..|f|] == f)
    decreases program
  {
    hide FormatsOf, Size, SecondPass, WellFormed, Tokens, TokensOf;
    if program == [] {
      EmptyProgram(rd, labels, data, pc);
    } else {
      var s, rest := program[0], program[1..];
      var here, size := FormatsOf(s, rd, labels, data, pc), Size(s, data);
      SecondPassSplit(program, rd, labels, data, pc);
      var later := SecondPass(Tokens(rest), rd, labels, data, pc + 4 * size);
      SecondPassLayout(rest, rd, labels, data, pc + 4 * size, if k == 0 then 0 else k - 1);
      if k > 0 {
        Beyond(here, later, size, Offset(rest, data, k - 1));
        assert k < |program| ==> program[k] == rest[k - 1];
      }
    }
  }

  lemma EmptyProgram(rd: Reader, labels: seq<Entry>, data: seq<Entry>, pc: int)
    ensures SecondPass(Tokens([]), rd, labels, data, pc) == []
  {
  }

  lemma Beyond(here: seq<Format>, later: seq<Format>, size: nat, o: nat)
    requires |here| == size && o <= |later|
    ensures (here + later)[size + o..] == later[o..]
  {
  }

  lemma SecondPassSplit(program: seq<Statement>, rd: Reader, labels: seq<Entry>, data: seq<Entry>, pc: int)
    requires AllWellFormed(program) && program != []
    ensures |FormatsOf(program[0], rd, labels, data, pc)| == Size(program[0], data)
    ensures SecondPass(Tokens(program), rd, labels, data, pc)
         == FormatsOf(program[0], rd, labels, data, pc)
            + SecondPass(Tokens(program[1..]), rd, labels, data, pc + 4 * Size(program[0], data))
  {
    hide FormatsOf, Size, SecondPass, TokensOf;
    SecondPassStatement(program[0], Tokens(program[1..]), rd, labels, data, pc);
  }

  const TEXT: int := TEXT_START

  // text_size is four times the number of words emitted.
  lemma TextSizeRight(program: seq<Statement>, rd: Reader, data: seq<Entry>)
    requires AllWellFormed(program)
    ensures var first := FirstPass(Tokens(program), data, First([], TEXT));
      first.pointer - TEXT == 4 * |SecondPass(Tokens(program), rd, first.labels, data, TEXT)|
  {
    var first := FirstPass(Tokens(program), data, First([], TEXT));
    FirstPassLayout(program, data, First([], TEXT));
    SecondPassLayout(program, rd, first.labels, data, TEXT, 0);
  }

  // The first label of its name.
  predicate Defines(program: seq<Statement>, t: nat, name: string) {
    && t < |program| && program[t] == Label(name)
    && forall i :: 0 <= i < t ==> program[i] != Label(name)
  }

  lemma {:induction false} LabelFound(program: seq<Statement>, data: seq<Entry>, address: int, t: nat, name: string)
    requires AllWellFormed(program) && Defines(program, t, name)
    ensures FindAddress(LabelsOf(program, data, address), name) == address + 4 * Offset(program, data, t)
    decreases program
  {
    hide Size, WellFormed;
    var s, rest := program[0], program[1..];
    if t > 0 {
      assert forall i :: 0 <= i < t - 1 ==> rest[i] == program[i + 1];
      LabelFound(rest, data, address + 4 * Size(s, data), t - 1, name);
      assert s.Label? ==> s.name != name;
      Elsewhere(s, address, LabelsOf(rest, data, address + 4 * Size(s, data)), name);
    }
  }

  lemma Elsewhere(s: Statement, address: int, later: seq<Entry>, name: string)
    requires s.Label? ==> s.name != name
    ensures FindAddress(LabelOf(s, address) + later, name) == FindAddress(later, name)
  {
    assert (LabelOf(s, address) + later)[|LabelOf(s, address)|..] == later;
  }

  // In the second pass a label stands for the address of the next word emitted after it.
  lemma LabelAddress(program: seq<Statement>, data: seq<Entry>, t: nat, name: string)
    requires AllWellFormed(program) && Defines(program, t, name)
    ensures FindAddress(FirstPass(Tokens(program), data, First([], TEXT)).labels, name)
      == TEXT + 4 * Offset(program, data, t)
  {
    FirstPassLayout(program, data, First([], TEXT));
    LabelFound(program, data, TEXT, t, name);
    assert [] + LabelsOf(program, data, TEXT) == LabelsOf(program, data, TEXT);
  }
}

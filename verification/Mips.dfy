// The parts that the two MIPS simulators share: decoded instructions, the
// simulated memory, and the address arithmetic of their 32-bit program counter.
module Mips {

  const TEXT_START := 0x0040_0000
  const DATA_START := 0x1000_0000
  const REGION_SIZE := 0x0010_0000  // MEM_TEXT_SIZE and MEM_DATA_SIZE
  const TWO_32 := 0x1_0000_0000

  // uint32_t: a machine word, also used as an address
  type Word = w: nat | w < TWO_32
  type Byte = b: nat | b < 0x100
  // the 16 bits of an immediate operand
  type Half = h: nat | h < 0x1_0000
  type Register = r: nat | r < 32
  type RegFile = s: seq<Word> | |s| == 32 witness seq(32, _ => 0)

  // A decoded instruction. In the simulators `target` overlaps the other operand
  // fields of a jump; here they are separate fields.
  datatype Instruction = Instruction(
    opcode: nat,
    func: nat,
    rs: Register,
    rt: Register,
    rd: Register,
    shamt: Register,
    imm: Half,
    target: nat)

  // The instruction table INST_INFO; the text region bounds its length.
  type Program = p: seq<Instruction> | 4 * |p| <= REGION_SIZE

  // ---- Instruction classes

  predicate IsLoad(i: Instruction) { i.opcode == 0x23 }

  predicate IsStore(i: Instruction) { i.opcode == 0x2b }

  predicate IsBranch(i: Instruction) { i.opcode == 0x4 || i.opcode == 0x5 }

  predicate IsJumpRegister(i: Instruction) { i.opcode == 0x0 && i.func == 0x8 }

  predicate IsJump(i: Instruction) { i.opcode == 0x2 || i.opcode == 0x3 || IsJumpRegister(i) }

  // The register the destination latch names, whether or not it is written.
  function Dest(i: Instruction): Register { if i.opcode == 0x0 then i.rd else i.rt }

  predicate Writes(i: Instruction) { !IsJump(i) && !IsBranch(i) && !IsStore(i) }

  // The arithmetic instructions of the two simulators, leaving out loads,
  // stores, branches and jumps.
  predicate IsArithmetic(i: Instruction) {
    || i.opcode in {0x8, 0xc, 0xf, 0xd, 0xa}
    || (i.opcode == 0x0 && i.func in {0x20, 0x24, 0x27, 0x25, 0x2a, 0x0, 0x2, 0x22})
  }

  // ---- 32-bit arithmetic

  function Pow2(n: nat): (r: nat)
    ensures r > 0
  {
    if n == 0 then 1 else 2 * Pow2(n - 1)
  }

  // a & b and a | b on n-bit numbers, from the lowest bit up
  function BitAnd(a: nat, b: nat, n: nat): (r: nat)
    requires a < Pow2(n) && b < Pow2(n)
    ensures r < Pow2(n)
  {
    if n == 0 then 0
    else (if a % 2 == 1 && b % 2 == 1 then 1 else 0) + 2 * BitAnd(a / 2, b / 2, n - 1)
  }

  function BitOr(a: nat, b: nat, n: nat): (r: nat)
    requires a < Pow2(n) && b < Pow2(n)
    ensures r < Pow2(n)
  {
    if n == 0 then 0
    else (if a % 2 == 1 || b % 2 == 1 then 1 else 0) + 2 * BitOr(a / 2, b / 2, n - 1)
  }

  lemma Pow2Of32()
    ensures Pow2(16) == 0x1_0000 && Pow2(32) == TWO_32
  {
    assert Pow2(8) == 0x100;
    assert Pow2(16) == 0x1_0000;
    assert Pow2(24) == 0x100_0000;
  }

  function Add(a: Word, b: Word): Word { (a + b) % TWO_32 }

  function Sub(a: Word, b: Word): Word { (a - b) % TWO_32 }

  function And(a: Word, b: Word): Word { Pow2Of32(); BitAnd(a, b, 32) }

  function Or(a: Word, b: Word): Word { Pow2Of32(); BitOr(a, b, 32) }

  function Not(a: Word): Word { TWO_32 - 1 - a }

  // Shifts, one bit position at a time. The right shift is the unsigned one.
  function ShiftLeft(a: Word, k: Register): Word
    decreases k, a
  {
    if k == 0 then a else ShiftLeft((2 * a) % TWO_32, k - 1)
  }

  function ShiftRight(a: Word, k: Register): Word
    decreases k, a
  {
    if k == 0 then a else ShiftRight(a / 2, k - 1)
  }

  // The value of a word read as `int`.
  function AsInt(a: Word): int { if a < 0x8000_0000 then a else a - TWO_32 }

  // The macro SIGN_EX.
  function SignEx(imm: Half): Word { if imm < 0x8000 then imm else imm + 0xffff_0000 }

  function Next(pc: Word): Word { (pc + 4) % TWO_32 }

  function BranchTarget(pc: Word, imm: Half): Word { (pc + 4 + 4 * AsInt(SignEx(imm))) % TWO_32 }

  function JumpTarget(pc: Word, target: nat): Word {
    ((pc / 0x1000_0000) * 0x1000_0000 + (target % 0x400_0000) * 4) % TWO_32
  }

  // True when the unsigned difference pc - TEXT_START is below 4 * NUM_INST.
  predicate InText(p: Program, pc: Word) {
    TEXT_START <= pc < TEXT_START + 4 * |p|
  }

  // get_inst_info
  function Fetch(p: Program, pc: Word): Instruction
    requires InText(p, pc)
  {
    p[(pc - TEXT_START) / 4]
  }

  // ---- Memory: two regions of bytes, words stored little-endian

  type Region = s: seq<Byte> | |s| == REGION_SIZE witness seq(REGION_SIZE, _ => 0)

  datatype Memory = Memory(text: Region, data: Region)

  predicate InRegion(start: nat, a: Word) {
    start <= a && a + 3 < start + REGION_SIZE
  }

  // All four bytes of the word lie inside one of the two regions.
  predicate InMemory(a: Word) {
    InRegion(TEXT_START, a) || InRegion(DATA_START, a)
  }

  function LoadBytes(s: Region, k: nat): Word
    requires k + 3 < REGION_SIZE
  {
    var b3: int, b2: int, b1: int := s[k + 3], s[k + 2], s[k + 1];
    b3 * 0x100_0000 + b2 * 0x1_0000 + b1 * 0x100 + s[k]
  }

  // (v >> 8 * n) & 0xff
  function ByteOf(v: Word, n: nat): Byte
    decreases n, v
  {
    if n == 0 then v % 0x100 else ByteOf(v / 0x100, n - 1)
  }

  function StoreBytes(s: Region, k: nat, v: Word): Region
    requires k + 3 < REGION_SIZE
  {
    s[k + 3 := ByteOf(v, 3)][k + 2 := ByteOf(v, 2)][k + 1 := ByteOf(v, 1)][k := ByteOf(v, 0)]
  }

  function ReadWord(m: Memory, a: Word): Word
    requires InMemory(a)
  {
    if InRegion(TEXT_START, a) then LoadBytes(m.text, a - TEXT_START) else LoadBytes(m.data, a - DATA_START)
  }

  function WriteWord(m: Memory, a: Word, v: Word): Memory
    requires InMemory(a)
  {
    if InRegion(TEXT_START, a) then m.(text := StoreBytes(m.text, a - TEXT_START, v))
    else m.(data := StoreBytes(m.data, a - DATA_START, v))
  }

  lemma BytesMakeWord(v: Word)
    ensures ByteOf(v, 3) * 0x100_0000 + ByteOf(v, 2) * 0x1_0000 + ByteOf(v, 1) * 0x100 + ByteOf(v, 0) == v
  {
    var v1 := v / 0x100;
    var v2 := v1 / 0x100;
    var v3 := v2 / 0x100;
    assert ByteOf(v, 0) == v - 0x100 * v1;
    assert ByteOf(v, 1) == ByteOf(v1, 0) == v1 - 0x100 * v2;
    assert ByteOf(v, 2) == v2 - 0x100 * v3 by { assert ByteOf(v, 2) == ByteOf(v1, 1) == ByteOf(v2, 0); }
    assert ByteOf(v, 3) == v3 by { assert ByteOf(v, 3) == ByteOf(v1, 2) == ByteOf(v2, 1) == ByteOf(v3, 0); }
  }

  lemma LoadAfterStore(s: Region, k: nat, v: Word, i: nat)
    requires k + 3 < REGION_SIZE && i + 3 < REGION_SIZE
    ensures i == k ==> LoadBytes(StoreBytes(s, k, v), i) == v
    ensures i + 4 <= k || k + 4 <= i ==> LoadBytes(StoreBytes(s, k, v), i) == LoadBytes(s, i)
  {
    BytesMakeWord(v);
    hide ByteOf;
    var t := StoreBytes(s, k, v);
    assert t[k] == ByteOf(v, 0) && t[k + 1] == ByteOf(v, 1) && t[k + 2] == ByteOf(v, 2) && t[k + 3] == ByteOf(v, 3);
  }

  // A word just written is read back; any word sharing no byte with it is unchanged.
  lemma ReadAfterWrite(m: Memory, a: Word, v: Word, b: Word)
    requires InMemory(a) && InMemory(b)
    ensures a == b ==> ReadWord(WriteWord(m, a, v), b) == v
    ensures b + 4 <= a || a + 4 <= b ==> ReadWord(WriteWord(m, a, v), b) == ReadWord(m, b)
  {
    hide LoadBytes, StoreBytes;
    if InRegion(TEXT_START, a) && InRegion(TEXT_START, b) {
      LoadAfterStore(m.text, a - TEXT_START, v, b - TEXT_START);
    } else if InRegion(DATA_START, a) && InRegion(DATA_START, b) {
      LoadAfterStore(m.data, a - DATA_START, v, b - DATA_START);
    }
  }
}

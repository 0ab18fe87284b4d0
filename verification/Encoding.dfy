// Instruction words as strings of binary digits: how the assembler writes them and
// how the simulator reads them back.
module Encoding {
  import opened Mips

  // ---- Binary digits

  function Digit(b: int): char { if b % 2 == 1 then '1' else '0' }

  function DigitValue(c: char): nat { if c == '1' then 1 else 0 }

  // The low digits of v, as vtob leaves them in its buffer.
  function Bits(v: int, size: nat): (r: string)
    ensures |r| == size
    decreases size
  {
    if size == 0 then [] else Bits(v / 2, size - 1) + [Digit(v)]
  }

  // strtol with base 2
  function FromBits(s: string): nat {
    if s == [] then 0 else 2 * FromBits(s[..|s| - 1]) + DigitValue(s[|s| - 1])
  }

  lemma {:induction false} ReadBits(v: int, size: nat)
    ensures FromBits(Bits(v, size)) == v % Pow2(size)
    decreases size
  {
    if size > 0 {
      ReadBits(v / 2, size - 1);
      assert Bits(v, size)[..size - 1] == Bits(v / 2, size - 1);
      HalfMod(v, Pow2(size - 1));
    }
  }

  lemma HalfMod(v: int, m: nat)
    requires m > 0
    ensures v % (2 * m) == 2 * (v / 2 % m) + v % 2
  {
    var q, r := v / 2 / m, v / 2 % m;
    assert v / 2 == m * q + r;
    assert v == 2 * (v / 2) + v % 2;
    assert v == (2 * m) * q + (2 * r + v % 2);
    Remainder(v, 2 * m, q, 2 * r + v % 2);
  }

  lemma Remainder(v: int, m: nat, q: int, r: nat)
    requires r < m && v == m * q + r
    ensures v % m == r && v / m == q
  {
    var d := q - v / m;
    assert m * d == m * q - m * (v / m);
    Multiple(m, d);
  }

  lemma Multiple(m: nat, d: int)
    ensures d >= 1 ==> m * d >= m
    ensures d <= -1 ==> m * d + m <= 0
  {
  }

  lemma {:induction false} BitsBound(s: string)
    ensures FromBits(s) < Pow2(|s|)
  {
    if s != [] {
      BitsBound(s[..|s| - 1]);
    }
  }

  lemma {:induction false} BitsOfSum(a: string, b: string)
    ensures FromBits(a + b) == FromBits(a) * Pow2(|b|) + FromBits(b)
  {
    if b == [] {
      assert a + b == a;
    } else {
      BitsOfSum(a, b[..|b| - 1]);
      assert (a + b)[..|a + b| - 1] == a + b[..|b| - 1];
      assert FromBits(a) * (2 * Pow2(|b| - 1)) == 2 * (FromBits(a) * Pow2(|b| - 1));
    }
  }

  // (binary >> k) & (1 << m) - 1
  function Field(w: nat, k: nat, m: nat): nat { w / Pow2(k) % Pow2(m) }

  // The digits of b, m of them with k after them, are the field at k.
  lemma FieldIs(a: string, b: string, c: string, w: nat)
    requires w == FromBits(a + b + c)
    ensures Field(w, |c|, |b|) == FromBits(b)
  {
    hide FromBits;
    BitsOfSum(a + b, c);
    BitsOfSum(a, b);
    BitsBound(b);
    BitsBound(c);
    FieldArithmetic(w, FromBits(a), FromBits(b), FromBits(c), Pow2(|b|), Pow2(|c|));
  }

  lemma FieldArithmetic(w: nat, a: nat, b: nat, c: nat, m: nat, k: nat)
    requires b < m && c < k && w == (a * m + b) * k + c
    ensures w / k % m == b
  {
    var ab := a * m + b;
    Remainder(w, k, ab, c);
    Remainder(ab, m, a, b);
  }

  method Vtob(value: int, tmp: array<char>, size: nat)
    requires size < tmp.Length
    modifies tmp
    ensures tmp[..size] == Bits(value, size) && tmp[size] == 0 as char
    ensures tmp[size + 1..] == old(tmp[size + 1..])
  {
    var v := value;
    for i := 0 to size
      invariant Bits(value, size) == Bits(v, size - i) + tmp[size - i..size]
      invariant tmp[size + 1..] == old(tmp[size + 1..])
    {
      ghost var tail := tmp[size - i..size];
      tmp[size - 1 - i] := Digit(v);
      assert tmp[size - 1 - i..size] == [Digit(v)] + tail;
      assert Bits(v, size - i) == Bits(v / 2, size - i - 1) + [Digit(v)];
      v := v / 2;
    }
    tmp[size] := 0 as char;
  }

  // ---- The three formats

  datatype Format =
    | RFormat(op: int, rs: int, rt: int, rd: int, shamt: int, funct: int)
    | IFormat(op: int, rs: int, rt: int, constant: int)
    | JFormat(op: int, address: int)

  // R_itob, I_itob and J_itob
  function Encode(f: Format): (r: string)
    ensures |r| == 32
  {
    match f
    case RFormat(op, rs, rt, rd, shamt, funct) =>
      Bits(op, 6) + Bits(rs, 5) + Bits(rt, 5) + Bits(rd, 5) + Bits(shamt, 5) + Bits(funct, 6)
    case IFormat(op, rs, rt, constant) => Bits(op, 6) + Bits(rs, 5) + Bits(rt, 5) + Bits(constant, 16)
    case JFormat(op, address) => Bits(op, 6) + Bits(address, 26)
  }

  predicate IsImmediate(op: nat) { op in {0x8, 0xc, 0x4, 0x5, 0xf, 0x23, 0xd, 0xa, 0x2b} }

  lemma Widths()
    ensures Pow2(5) == 32 && Pow2(6) == 64 && Pow2(16) == 0x1_0000 && Pow2(26) == 0x400_0000
  {
    assert Pow2(8) == 0x100;
    assert Pow2(16) == 0x1_0000;
    assert Pow2(24) == 0x100_0000;
  }

  // parsing_instr; a field that it does not set is 0.
  function Decode(buffer: string): Instruction {
    Widths();
    var binary := FromBits(buffer);
    var opcode := Field(binary, 26, 6);
    if opcode == 0 then
      Instruction(0, Field(binary, 0, 6), Field(binary, 21, 5), Field(binary, 16, 5), Field(binary, 11, 5),
                  Field(binary, 6, 5), 0, 0)
    else if IsImmediate(opcode) then
      Instruction(opcode, 0, Field(binary, 21, 5), Field(binary, 16, 5), 0, 0, Field(binary, 0, 16), 0)
    else if opcode == 2 || opcode == 3 then Instruction(opcode, 0, 0, 0, 0, 0, 0, Field(binary, 0, 26))
    else Instruction(opcode, 0, 0, 0, 0, 0, 0, 0)
  }

  // The fields of a format, cut to their widths.
  function Meant(f: Format): Instruction {
    match f
    case RFormat(op, rs, rt, rd, shamt, funct) =>
      Instruction(op % 64, funct % 64, rs % 32, rt % 32, rd % 32, shamt % 32, 0, 0)
    case IFormat(op, rs, rt, constant) => Instruction(op % 64, 0, rs % 32, rt % 32, 0, 0, constant % 0x1_0000, 0)
    case JFormat(op, address) => Instruction(op % 64, 0, 0, 0, 0, 0, 0, address % 0x400_0000)
  }

  // The opcode fits the format.
  predicate Proper(f: Format) {
    match f
    case RFormat(_, _, _, _, _, _) => f.op == 0
    case IFormat(_, _, _, _) => f.op in {0x8, 0xc, 0x4, 0x5, 0xf, 0x23, 0xd, 0xa, 0x2b}
    case JFormat(_, _) => f.op == 2 || f.op == 3
  }

  // What the assembler writes, the simulator reads.
  lemma DecodeEncode(f: Format)
    requires Proper(f)
    ensures Decode(Encode(f)) == Meant(f)
  {
    match f
    case RFormat(op, rs, rt, rd, shamt, funct) => DecodeR(op, rs, rt, rd, shamt, funct);
    case IFormat(op, rs, rt, constant) => DecodeI(op, rs, rt, constant);
    case JFormat(op, address) => DecodeJ(op, address);
  }

  lemma FieldOf(a: string, v: int, m: nat, c: string, s: string)
    requires s == a + Bits(v, m) + c
    ensures Field(FromBits(s), |c|, m) == v % Pow2(m)
  {
    FieldIs(a, Bits(v, m), c, FromBits(s));
    ReadBits(v, m);
  }

  lemma DecodeR(op: int, rs: int, rt: int, rd: int, shamt: int, funct: int)
    requires op == 0
    ensures Decode(Encode(RFormat(op, rs, rt, rd, shamt, funct))) == Meant(RFormat(op, rs, rt, rd, shamt, funct))
  {
    hide Bits, FromBits, Field;
    Widths();
    var s := Encode(RFormat(op, rs, rt, rd, shamt, funct));
    var o, a, b, c, d, e := Bits(op, 6), Bits(rs, 5), Bits(rt, 5), Bits(rd, 5), Bits(shamt, 5), Bits(funct, 6);
    assert s == [] + o + (a + b + c + d + e);
    FieldOf([], op, 6, a + b + c + d + e, s);
    assert s == o + a + (b + c + d + e);
    FieldOf(o, rs, 5, b + c + d + e, s);
    assert s == (o + a) + b + (c + d + e);
    FieldOf(o + a, rt, 5, c + d + e, s);
    assert s == (o + a + b) + c + (d + e);
    FieldOf(o + a + b, rd, 5, d + e, s);
    assert s == (o + a + b + c) + d + e;
    FieldOf(o + a + b + c, shamt, 5, e, s);
    assert s == (o + a + b + c + d) + e + [];
    FieldOf(o + a + b + c + d, funct, 6, [], s);
  }

  lemma DecodeI(op: int, rs: int, rt: int, constant: int)
    requires op in {0x8, 0xc, 0x4, 0x5, 0xf, 0x23, 0xd, 0xa, 0x2b}
    ensures Decode(Encode(IFormat(op, rs, rt, constant))) == Meant(IFormat(op, rs, rt, constant))
  {
    hide Bits, FromBits, Field;
    Widths();
    var s := Encode(IFormat(op, rs, rt, constant));
    var o, a, b, c := Bits(op, 6), Bits(rs, 5), Bits(rt, 5), Bits(constant, 16);
    assert s == [] + o + (a + b + c);
    FieldOf([], op, 6, a + b + c, s);
    assert s == o + a + (b + c);
    FieldOf(o, rs, 5, b + c, s);
    assert s == (o + a) + b + c;
    FieldOf(o + a, rt, 5, c, s);
    assert s == (o + a + b) + c + [];
    FieldOf(o + a + b, constant, 16, [], s);
  }

  lemma DecodeJ(op: int, address: int)
    requires op == 2 || op == 3
    ensures Decode(Encode(JFormat(op, address))) == Meant(JFormat(op, address))
  {
    hide Bits, FromBits, Field;
    Widths();
    var s := Encode(JFormat(op, address));
    var o, a := Bits(op, 6), Bits(address, 26);
    assert s == [] + o + a;
    FieldOf([], op, 6, a, s);
    assert s == o + a + [];
    FieldOf(o, address, 26, [], s);
  }
}

// The arithmetic of the two simulators: on which operands they compute the same.
module AluAgreement {
  import opened Mips
  import Sequential
  import opened Pipeline

  // The low j bits of x, and x with its low j bits dropped.
  function LowBits(x: nat, j: nat): nat
    decreases j, x
  {
    if j == 0 then 0 else x % 2 + 2 * LowBits(x / 2, j - 1)
  }

  function Drop(x: nat, j: nat): nat
    decreases j, x
  {
    if j == 0 then x else Drop(x / 2, j - 1)
  }

  lemma {:induction false} AndLowMask(x: nat, j: nat, n: nat)
    requires j <= n && x < Pow2(n) && Pow2(j) - 1 < Pow2(n)
    ensures BitAnd(x, Pow2(j) - 1, n) == LowBits(x, j)
    decreases n
  {
    if n > 0 {
      if j == 0 {
        AndLowMask(x / 2, 0, n - 1);
      } else {
        assert (Pow2(j) - 1) / 2 == Pow2(j - 1) - 1;
        AndLowMask(x / 2, j - 1, n - 1);
      }
    }
  }

  lemma {:induction false} AndHighMask(x: nat, j: nat, n: nat)
    requires j <= n && x < Pow2(n) && Pow2(j) <= Pow2(n)
    ensures BitAnd(x, Pow2(n) - Pow2(j), n) + LowBits(x, j) == x
    decreases n
  {
    if n > 0 {
      if j == 0 {
        assert (Pow2(n) - 1) / 2 == Pow2(n - 1) - Pow2(0);
        AndHighMask(x / 2, 0, n - 1);
      } else {
        assert (Pow2(n) - Pow2(j)) / 2 == Pow2(n - 1) - Pow2(j - 1);
        AndHighMask(x / 2, j - 1, n - 1);
      }
    }
  }

  lemma {:induction false} LowBitsOfSmall(x: nat, j: nat)
    requires x < Pow2(j)
    ensures LowBits(x, j) == x
    decreases j
  {
    if j > 0 {
      LowBitsOfSmall(x / 2, j - 1);
    }
  }

  lemma {:induction false} LowBitsWithoutTop(x: nat, m: nat, j: nat)
    requires j <= m && x >= Pow2(m)
    ensures LowBits(x - Pow2(m), j) == LowBits(x, j)
    decreases j
  {
    if j > 0 {
      assert (x - Pow2(m)) / 2 == x / 2 - Pow2(m - 1) && (x - Pow2(m)) % 2 == x % 2;
      LowBitsWithoutTop(x / 2, m - 1, j - 1);
    }
  }

  lemma Pow2Of31()
    ensures Pow2(31) == 0x8000_0000
  {
    Pow2Of32();
    assert Pow2(32) == 2 * Pow2(31);
  }

  lemma {:induction false} ShiftedIsMultiple(a: Word, t: nat, k: Register)
    requires t + k <= 31 && LowBits(a, t) == 0
    ensures LowBits(ShiftLeft(a, k), t + k) == 0
    decreases k
  {
    if k > 0 {
      var a' := (2 * a) % TWO_32;
      Pow2Of31();
      if a >= 0x8000_0000 {
        LowBitsWithoutTop(a, 31, t);
      }
      assert a' / 2 == (if a < 0x8000_0000 then a else a - 0x8000_0000) && a' % 2 == 0;
      ShiftedIsMultiple(a', t + 1, k - 1);
    }
  }

  lemma LoadUpperAgrees(b: Word)
    ensures And(ShiftLeft(b, 16), 0xffff_0000) == ShiftLeft(b, 16)
  {
    ShiftedIsMultiple(b, 0, 16);
    Pow2Of32();
    AndHighMask(ShiftLeft(b, 16), 16, 32);
  }

  lemma {:induction false} ArithmeticShiftOfPositive(b: Word, k: Register)
    requires b < 0x8000_0000
    ensures ShiftRightArithmetic(b, k) == ShiftRight(b, k) < 0x8000_0000
    decreases k
  {
    if k > 0 {
      ArithmeticShiftOfPositive(b / 2, k - 1);
    }
  }

  lemma {:induction false} ArithmeticShiftOfNegative(b: Word, k: Register)
    requires b >= 0xc000_0000
    ensures ShiftRightArithmetic(b, k) >= 0xc000_0000
    decreases k
  {
    if k > 0 {
      ArithmeticShiftOfNegative(b / 2 + 0x8000_0000, k - 1);
    }
  }

  lemma {:induction false} ShiftRightBound(b: Word, k: Register)
    ensures ShiftRight(b, k) <= b
    decreases k
  {
    if k > 0 {
      ShiftRightBound(b / 2, k - 1);
    }
  }

  // srl: the mask repairs the sign bits only for a shift by one.
  lemma ShiftRightLogicalAgrees(b: Word, k: Register)
    ensures And(ShiftRightArithmetic(b, k), 0x7fff_ffff) == ShiftRight(b, k) <==> b < 0x8000_0000 || k == 1
  {
    var y := ShiftRightArithmetic(b, k);
    Pow2Of31();
    Pow2Of32();
    AndLowMask(y, 31, 32);
    if b < 0x8000_0000 {
      ArithmeticShiftOfPositive(b, k);
      LowBitsOfSmall(y, 31);
    } else {
      assert k > 0 ==> y == ShiftRightArithmetic(b / 2 + 0x8000_0000, k - 1);
      if k > 0 {
        ArithmeticShiftOfNegative(b / 2 + 0x8000_0000, k - 1);
      }
      LowBitsWithoutTop(y, 31, 31);
      LowBitsOfSmall(y - 0x8000_0000, 31);
      if k >= 2 {
        assert ShiftRight(b, k) == ShiftRight(b / 2, k - 1) == ShiftRight(b / 2 / 2, k - 2);
        ShiftRightBound(b / 2 / 2, k - 2);
      } else if k == 1 {
        assert ShiftRight(b, 1) == ShiftRight(b / 2, 0);
      }
    }
  }

  lemma {:induction false} OrAfterAgreement(a: nat, b: nat, c: nat, j: nat, n: nat)
    requires j <= n && a < Pow2(n) && b < Pow2(n) && c < Pow2(n) && LowBits(b, j) == LowBits(c, j)
    ensures Drop(a, j) < Pow2(n - j) && Drop(b, j) < Pow2(n - j) && Drop(c, j) < Pow2(n - j)
    ensures BitOr(a, b, n) == BitOr(a, c, n)
      <==> BitOr(Drop(a, j), Drop(b, j), n - j) == BitOr(Drop(a, j), Drop(c, j), n - j)
    decreases j
  {
    if j > 0 {
      OrAfterAgreement(a / 2, b / 2, c / 2, j - 1, n - 1);
    }
  }

  lemma {:induction false} OrWithZero(a: nat, n: nat)
    requires a < Pow2(n)
    ensures BitOr(a, 0, n) == a
    decreases n
  {
    if n > 0 {
      OrWithZero(a / 2, n - 1);
    }
  }

  lemma {:induction false} OrWithOnes(a: nat, n: nat)
    requires a < Pow2(n)
    ensures BitOr(a, Pow2(n) - 1, n) == Pow2(n) - 1
    decreases n
  {
    if n > 0 {
      var ones := Pow2(n) - 1;
      assert ones % 2 == 1 && ones / 2 == Pow2(n - 1) - 1;
      OrWithOnes(a / 2, n - 1);
    }
  }

  lemma {:induction false} DropOfSum(x: nat, h: nat, j: nat)
    requires x < Pow2(j)
    ensures Drop(x + h * Pow2(j), j) == h && LowBits(x + h * Pow2(j), j) == x
    decreases j
  {
    if j > 0 {
      assert h * Pow2(j) == 2 * (h * Pow2(j - 1));
      DropOfSum(x / 2, h, j - 1);
    }
  }

  // ori: the pipeline zero-extends the immediate, the sequential simulator sign-extends it.
  lemma OrImmediateAgrees(a: Word, imm: Half)
    ensures Or(a, And(SignEx(imm), 0xffff)) == Or(a, SignEx(imm)) <==> imm < 0x8000 || a >= 0xffff_0000
  {
    Pow2Of32();
    var b := SignEx(imm);
    AndLowMask(b, 16, 32);
    DropOfSum(imm, if imm < 0x8000 then 0 else 0xffff, 16);
    DropOfSum(imm, 0, 16);
    DropOfSum(a % 0x1_0000, a / 0x1_0000, 16);
    if imm >= 0x8000 {
      OrAfterAgreement(a, b, imm, 16, 32);
      OrWithZero(a / 0x1_0000, 16);
      OrWithOnes(a / 0x1_0000, 16);
    }
  }

  // ---- The agreement of the two arithmetic units

  predicate UsesRs(i: Instruction) {
    !(i.opcode == 0xf || (i.opcode == 0x0 && i.func in {0x0, 0x2}))
  }

  predicate UsesRt(i: Instruction) {
    i.opcode == 0x0 || IsBranch(i)
  }

  // The operands on which slt, srl and ori have the same result in both; every
  // other arithmetic instruction always does.
  predicate SameArithmetic(i: Instruction, a: Word, b: Word) {
    if i.opcode == 0xd then i.imm < 0x8000 || a >= 0xffff_0000
    else if i.opcode == 0x0 && i.func == 0x2a then a < 0x8000_0000 <==> b < 0x8000_0000
    else if i.opcode == 0x0 && i.func == 0x2 then b < 0x8000_0000 || i.shamt == 1
    else true
  }

  function SecondOperand(i: Instruction, b: Word): Word {
    if ControlOf(i).ex.aluSrc then SignEx(i.imm) else b
  }

  lemma ArithmeticAgrees(i: Instruction, a: Word, b: Word)
    requires IsArithmetic(i)
    ensures Alu(a, SecondOperand(i, b), i.opcode, i.func, i.shamt) == Sequential.Value(i, a, b)
      <==> SameArithmetic(i, a, b)
  {
    match i.opcode {
      case 0xd => OrImmediateAgrees(a, i.imm);
      case 0xf => LoadUpperAgrees(SignEx(i.imm));
      case 0x0 =>
        if i.func == 0x2 {
          ShiftRightLogicalAgrees(b, i.shamt);
        }
      case _ =>
    }
  }
}

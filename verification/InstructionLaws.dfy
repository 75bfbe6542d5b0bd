/** What the instructions mean, said without the transition function's own formulas: differences that add
    up again, bits one by one, products in two words, where a jump goes and what it links. */
module InstructionLaws {
  import opened Words
  import opened Isa
  import opened Machine
  import opened Assembly

  // ----- bits -----

  /** The bit of weight 2^k. */
  function BitAt(x: nat, k: nat): (b: nat)
    ensures b < 2
  {
    if k == 0 then x % 2 else BitAt(x / 2, k - 1)
  }

  /** What is left of a number without its lowest n bits. */
  function Quotient(x: nat, n: nat): (q: nat)
    ensures q <= x
  {
    SmallQuotient(x, Pow2(n));
    x / Pow2(n)
  }

  lemma {:induction false} QuotientStep(x: nat, n: nat)
    ensures Quotient(x, n) == if n == 0 then x else Quotient(x / 2, n - 1)
  {
    if n > 0 {
      HalfFirst(x, Pow2(n - 1));
    }
  }

  /** Which is the usual reading. */
  lemma {:induction false} BitAtQuotient(x: nat, k: nat)
    ensures BitAt(x, k) == x / Pow2(k) % 2
  {
    BitAtRest(x, k);
  }

  lemma {:induction false} BitAtRest(x: nat, k: nat)
    ensures BitAt(x, k) == Quotient(x, k) % 2
  {
    hide Quotient;
    QuotientStep(x, k);
    if k > 0 {
      BitAtRest(x / 2, k - 1);
    }
  }

  lemma {:induction false} SmallQuotient(x: nat, p: nat)
    requires p > 0
    ensures 0 <= x / p <= x
  {
    assert p * (x + 1) == (p - 1) * (x + 1) + (x + 1);
    assert (p - 1) * (x + 1) >= 0;
    BelowQuotient(x, p, x + 1);
  }

  lemma {:induction false} BelowQuotient(x: nat, p: nat, m: nat)
    requires p > 0 && x < p * m
    ensures 0 <= x / p < m
  {
    var q := x / p;
    assert x == q * p + x % p;
    assert q >= m ==> (q - m) * p >= 0;
  }

  lemma {:induction false} HalfFirst(x: nat, p: nat)
    requires p > 0
    ensures 2 * p > 0 && x / (2 * p) == x / 2 / p
  {
    var q, r := x / (2 * p), x % (2 * p);
    assert x == 2 * p * q + r;
    assert 2 * p * q == 2 * (p * q);
    assert x / 2 == p * q + r / 2;
    QuotientIsUnique(x / 2, p, q, r / 2);
  }

  lemma {:induction false} QuotientIsUnique(x: nat, n: nat, q: nat, r: nat)
    requires n > 0 && r < n && x == n * q + r
    ensures x / n == q && x % n == r
  {
    assert n * q == q * n;
    DivisionIsUnique(x, n, q, r);
    var d := x / n - q;
    assert x == (x / n) * n + x % n;
    assert d * n == (x / n) * n - q * n;
    if d != 0 {
      NoMultipleBetween(d, n);
    }
  }

  /** Reducing modulo 2^n keeps the lowest n bits. */
  lemma {:induction false} BitOfRest(x: nat, n: nat, k: nat)
    requires k < n
    ensures BitAt(x % Pow2(n), k) == BitAt(x, k)
  {
    var p := Pow2(n - 1);
    var q, r := x / (2 * p), x % (2 * p);
    assert x == 2 * p * q + r;
    assert 2 * p * q == 2 * (p * q);
    assert r % 2 == x % 2 && x / 2 == p * q + r / 2;
    QuotientIsUnique(x / 2, p, q, r / 2);
    if k > 0 {
      BitOfRest(x / 2, n - 1, k - 1);
    }
  }

  lemma {:induction false} BitOfWrap(x: nat, k: nat)
    requires k < 32
    ensures BitAt(Wrap(x), k) == BitAt(x, k)
  {
    PowersOfTwo();
    BitOfRest(x, 32, k);
  }

  lemma {:induction false} NoBitAbove(x: nat, n: nat, k: nat)
    requires x < Pow2(n) && n <= k
    ensures BitAt(x, k) == 0
  {
    if n > 0 {
      NoBitAbove(x / 2, n - 1, k - 1);
    } else if k > 0 {
      NoBitAbove(0, 0, k - 1);
    }
  }

  lemma {:induction false} BitOfBits(op: BitOp, a: nat, b: nat, k: nat)
    ensures BitAt(Bits(op, a, b), k) == op.Bit(BitAt(a, k), BitAt(b, k))
    decreases k
  {
    if k > 0 {
      BitOfBits(op, a / 2, b / 2, k - 1);
    }
  }

  lemma {:induction false} BitOfComplement(x: nat, n: nat, k: nat)
    requires k < n && x < Pow2(n)
    ensures BitAt(Pow2(n) - 1 - x, k) == 1 - BitAt(x, k)
  {
    if k > 0 {
      BitOfComplement(x / 2, n - 1, k - 1);
    }
  }

  lemma {:induction false} BitOfMultiple(x: nat, n: nat, k: nat)
    ensures BitAt(x * Pow2(n), k) == if k < n then 0 else BitAt(x, k - n)
    decreases n
  {
    if n > 0 {
      assert x * Pow2(n) == 2 * (x * Pow2(n - 1));
      if k > 0 {
        BitOfMultiple(x, n - 1, k - 1);
      }
    }
  }

  lemma {:induction false} BitOfQuotient(x: nat, n: nat, k: nat)
    ensures BitAt(Quotient(x, n), k) == BitAt(x, k + n)
    decreases n
  {
    hide Quotient;
    QuotientStep(x, n);
    if n > 0 {
      BitOfQuotient(x / 2, n - 1, k);
    }
  }

  /** Two words with the same bits are the same. */
  lemma {:induction false} SameBits(x: nat, y: nat, n: nat)
    requires x < Pow2(n) && y < Pow2(n) && forall k: nat | k < n :: BitAt(x, k) == BitAt(y, k)
    ensures x == y
  {
    if n > 0 {
      assert BitAt(x, 0) == BitAt(y, 0);
      forall k: nat | k < n - 1 ensures BitAt(x / 2, k) == BitAt(y / 2, k) {
        assert BitAt(x, k + 1) == BitAt(y, k + 1);
      }
      SameBits(x / 2, y / 2, n - 1);
    }
  }

  // ----- results in a register -----

  /** One register may have changed, and the program counter is at the next instruction. */
  predicate OnlyRegister(s: State, t: State, d: Reg) {
    t == s.(regs := s.regs[d := t.regs[d]], pc := Wrap(s.pc + 4))
  }

  /** The sum is right up to one carry. */
  lemma {:induction false} Adds(s: State, op: Opcode, d: Reg, a: Reg, b: Reg)
    requires op == ADD || op == ADDU
    ensures var t := Execute(InsRRR(op, d, a, b), s);
      OnlyRegister(s, t, d) && t.regs[d] as int - s.regs[a] as int - s.regs[b] as int in {0, -0x1_0000_0000}
  {
  }

  /** What is left, and the subtrahend, add up to the minuend; only a borrow is lost. */
  lemma {:induction false} Subtracts(s: State, op: Opcode, d: Reg, a: Reg, b: Reg)
    requires op == SUB || op == SUBU
    ensures var t := Execute(InsRRR(op, d, a, b), s);
      OnlyRegister(s, t, d) && t.regs[d] as int + s.regs[b] as int - s.regs[a] as int in {0, 0x1_0000_0000}
  {
  }

  /** `addi` reads its immediate as a signed number, `addiu` as an unsigned one. */
  lemma {:induction false} AddsImmediate(s: State, op: Opcode, d: Reg, a: Reg, imm: Half)
    requires op == ADDI || op == ADDIU
    ensures var t := Execute(InsRRL(op, d, a, imm), s);
      var n := if op == ADDI && imm >= 0x8000 then imm as int - 0x1_0000 else imm as int;
      OnlyRegister(s, t, d) && t.regs[d] as int - s.regs[a] as int - n in {0, 0x1_0000_0000, -0x1_0000_0000}
  {
  }

  /** 1 or 0, for unsigned operands. */
  lemma {:induction false} Compares(s: State, op: Opcode, d: Reg, a: Reg, b: Reg)
    requires op == SLT || op == SLTU || op == SEQ || op == SNE
    ensures var t := Execute(InsRRR(op, d, a, b), s);
      && OnlyRegister(s, t, d) && (t.regs[d] == 0 || t.regs[d] == 1)
      && (op == SLT || op == SLTU ==> (t.regs[d] == 1 <==> s.regs[a] < s.regs[b]))
      && (op == SEQ ==> (t.regs[d] == 1 <==> s.regs[a] == s.regs[b]))
      && (op == SNE ==> (t.regs[d] == 0 <==> s.regs[a] == s.regs[b]))
  {
  }

  /** The immediate is not extended by its sign. */
  lemma {:induction false} ComparesImmediate(s: State, op: Opcode, d: Reg, a: Reg, imm: Half)
    requires op == SLTI || op == SLTIU
    ensures var t := Execute(InsRRL(op, d, a, imm), s);
      OnlyRegister(s, t, d) && (t.regs[d] == 0 || t.regs[d] == 1) && (t.regs[d] == 1 <==> s.regs[a] < imm)
  {
  }

  /** What a bitwise instruction makes of two bits. */
  predicate BitFollows(op: Opcode, x: nat, y: nat, z: nat) {
    match op
    case AND | ANDI => z == 1 <==> x == 1 && y == 1
    case OR | ORI => z == 0 <==> x == 0 && y == 0
    case XOR | XORI => z == 0 <==> x == y
    case NOR => z == 1 <==> x == 0 && y == 0
    case _ => false
  }

  lemma {:induction false} BitOfBitwise(op: BitOp, x: Word, y: Word, k: nat)
    ensures BitAt(Bitwise(op, x, y), k) == op.Bit(BitAt(x, k), BitAt(y, k))
  {
    hide BitAt, Bits;
    BitOfBits(op, x, y, k);
  }

  lemma {:induction false} AluBits(op: Opcode, x: Word, y: Word, k: nat)
    requires (op == AND || op == OR || op == XOR || op == NOR) && k < 32
    ensures Alu(op, x, y).Some? && BitFollows(op, BitAt(x, k), BitAt(y, k), BitAt(Alu(op, x, y).value, k))
  {
    hide BitAt, Bitwise, Pow2;
    if op == AND {
      BitOfBitwise(And, x, y, k);
    } else if op == XOR {
      BitOfBitwise(Xor, x, y, k);
    } else {
      BitOfBitwise(Or, x, y, k);
      PowersOfTwo();
      BitOfComplement(Bitwise(Or, x, y), 32, k);
    }
  }

  lemma {:induction false} BitwiseBits(s: State, op: Opcode, d: Reg, a: Reg, b: Reg, k: nat)
    requires (op == AND || op == OR || op == XOR || op == NOR) && k < 32
    ensures var t := Execute(InsRRR(op, d, a, b), s);
      OnlyRegister(s, t, d) && BitFollows(op, BitAt(s.regs[a], k), BitAt(s.regs[b], k), BitAt(t.regs[d], k))
  {
    hide BitAt, Alu, BitFollows;
    AluBits(op, s.regs[a], s.regs[b], k);
  }

  lemma {:induction false} AluImmediateBits(op: Opcode, x: Word, imm: Half, k: nat)
    requires (op == ANDI || op == ORI || op == XORI) && k < 32
    ensures AluImmediate(op, x, imm).Some?
    ensures BitFollows(op, BitAt(x, k), if k < 16 then BitAt(imm, k) else 0, BitAt(AluImmediate(op, x, imm).value, k))
  {
    hide BitAt, Bitwise, Pow2;
    PowersOfTwo();
    if k >= 16 {
      NoBitAbove(imm, 16, k);
    }
    if op == ANDI {
      BitOfBitwise(And, x, imm, k);
    } else if op == ORI {
      BitOfBitwise(Or, x, imm, k);
    } else {
      BitOfBitwise(Xor, x, imm, k);
    }
  }

  /** The immediate's upper half is zero, for `xori` as well. */
  lemma {:induction false} BitwiseImmediateBits(s: State, op: Opcode, d: Reg, a: Reg, imm: Half, k: nat)
    requires (op == ANDI || op == ORI || op == XORI) && k < 32
    ensures var t := Execute(InsRRL(op, d, a, imm), s);
      && OnlyRegister(s, t, d)
      && BitFollows(op, BitAt(s.regs[a], k), if k < 16 then BitAt(imm, k) else 0, BitAt(t.regs[d], k))
  {
    hide BitAt, AluImmediate, BitFollows;
    AluImmediateBits(op, s.regs[a], imm, k);
  }

  /** Where the bits of a shifted word come from; `sra` fills with ones whatever the sign. */
  function Shifted(op: Opcode, x: Word, n: nat, k: nat): nat {
    match op
    case SLL | SLLV => if k < n then 0 else BitAt(x, k - n)
    case SRL | SRLV => if k + n < 32 then BitAt(x, k + n) else 0
    case _ => if k + n < 32 then BitAt(x, k + n) else 1
  }

  lemma {:induction false} ShiftsLeft(x: Word, n: nat, k: nat)
    requires n < 32 && k < 32
    ensures ShiftLeft(x, n).Some? && BitAt(ShiftLeft(x, n).value, k) == Shifted(SLL, x, n, k)
  {
    hide BitAt;
    BitOfWrap(x * Pow2(n), k);
    BitOfMultiple(x, n, k);
  }

  lemma {:induction false} ShiftRightIs(x: Word, n: nat)
    requires n < 32
    ensures ShiftRight(x, n) == Some(Quotient(x, n))
  {
    hide Pow2;
  }

  lemma {:induction false} ShiftsRight(x: Word, n: nat, k: nat)
    requires n < 32 && k < 32
    ensures ShiftRight(x, n).Some? && BitAt(ShiftRight(x, n).value, k) == Shifted(SRL, x, n, k)
  {
    hide BitAt, Pow2, Quotient, ShiftRight;
    ShiftRightIs(x, n);
    BitOfQuotient(x, n, k);
    if k + n >= 32 {
      PowersOfTwo();
      NoBitAbove(x, 32, k + n);
    }
  }

  lemma {:induction false} BitOfOnes(k: nat)
    requires k < 32
    ensures BitAt(0xFFFF_FFFF, k) == 1
  {
    hide BitAt;
    PowersOfTwo();
    NoBitsInZero(k);
    BitOfComplement(0, 32, k);
  }

  lemma {:induction false} NoBitsInZero(k: nat)
    ensures BitAt(0, k) == 0
  {
    NoBitAbove(0, 0, k);
  }

  /** The source's formula for `sra`. */
  lemma {:induction false} ArithmeticIs(x: Word, n: Half)
    requires n < 32
    ensures AluImmediate(SRA, x, n) == Some(Bitwise(Or, Quotient(x, n), 0xFFFF_FFFF - Quotient(0xFFFF_FFFF, n)))
  {
    hide Pow2, Bits;
    OrZero(Wrap(0xFFFF_FFFF / Pow2(n)));
    ShiftRightIs(x, n);
    ShiftRightIs(0xFFFF_FFFF, n);
  }

  lemma {:induction false} ShiftsArithmetic(x: Word, n: Half, k: nat)
    requires n < 32 && k < 32
    ensures AluImmediate(SRA, x, n).Some? && BitAt(AluImmediate(SRA, x, n).value, k) == Shifted(SRA, x, n, k)
  {
    hide BitAt, Bitwise, Pow2, Quotient, AluImmediate;
    ArithmeticIs(x, n);
    var ones := Quotient(0xFFFF_FFFF, n);
    PowersOfTwo();
    BitOfQuotient(x, n, k);
    BitOfQuotient(0xFFFF_FFFF, n, k);
    if k + n < 32 {
      BitOfOnes(k + n);
    } else {
      NoBitAbove(0xFFFF_FFFF, 32, k + n);
      NoBitAbove(x, 32, k + n);
    }
    BitOfComplement(ones, 32, k);
    BitOfBitwise(Or, Quotient(x, n), 0xFFFF_FFFF - ones, k);
  }

  /** Shifts by an immediate; 32 or more is undefined. */
  lemma {:induction false} ShiftBits(s: State, op: Opcode, d: Reg, a: Reg, n: Half, k: nat)
    requires (op == SLL || op == SRL || op == SRA) && k < 32
    ensures var t := Execute(InsRRL(op, d, a, n), s);
      if n >= 32 then t == s.(fault := true)
      else OnlyRegister(s, t, d) && BitAt(t.regs[d], k) == Shifted(op, s.regs[a], n, k)
  {
    hide BitAt, Bits, Pow2;
    if n < 32 {
      ShiftsLeft(s.regs[a], n, k);
      ShiftsRight(s.regs[a], n, k);
      ShiftsArithmetic(s.regs[a], n, k);
    }
  }

  lemma {:induction false} SameShift(x: Word, n: nat, k: nat)
    ensures Shifted(SLLV, x, n, k) == Shifted(SLL, x, n, k) && Shifted(SRLV, x, n, k) == Shifted(SRL, x, n, k)
  {
    hide BitAt;
  }

  lemma {:induction false} ShiftTooFar(x: Word, n: nat)
    requires n >= 32
    ensures ShiftLeft(x, n) == None == ShiftRight(x, n)
  {
    hide Pow2;
  }

  /** Shifts by a register, all of it. */
  lemma {:induction false} ShiftVariableBits(s: State, op: Opcode, d: Reg, a: Reg, b: Reg, k: nat)
    requires (op == SLLV || op == SRLV) && k < 32
    ensures var t := Execute(InsRRR(op, d, a, b), s);
      if s.regs[b] >= 32 then t == s.(fault := true)
      else OnlyRegister(s, t, d) && BitAt(t.regs[d], k) == Shifted(op, s.regs[a], s.regs[b], k)
  {
    hide BitAt, ShiftLeft, ShiftRight, Bitwise, Quotient, Shifted;
    var x, n := s.regs[a], s.regs[b];
    SameShift(x, n, k);
    if n < 32 {
      ShiftsLeft(x, n, k);
      ShiftsRight(x, n, k);
    } else {
      ShiftTooFar(x, n);
    }
  }

  lemma {:induction false} BitsCommute(op: BitOp, x: nat, y: nat)
    ensures Bits(op, x, y) == Bits(op, y, x)
    decreases x + y
  {
    if x != 0 || y != 0 {
      BitsCommute(op, x / 2, y / 2);
    }
  }

  lemma {:induction false} PowerSum(m: nat, n: nat)
    ensures Pow2(m) * Pow2(n) == Pow2(m + n)
  {
    if m > 0 {
      PowerSum(m - 1, n);
      Doubled(Pow2(m - 1), Pow2(n));
    }
  }

  lemma {:induction false} Doubled(x: int, y: int)
    ensures (2 * x) * y == 2 * (x * y)
  {
  }

  /** The n upper bits of `sra` are ones. */
  lemma {:induction false} ArithmeticValue(x: Word, n: Half)
    requires n < 32
    ensures Pow2(32 - n) <= 0x1_0000_0000
    ensures AluImmediate(SRA, x, n) == Some(0x1_0000_0000 - Pow2(32 - n) + Quotient(x, n))
  {
    hide Bits, Pow2, AluImmediate, Quotient;
    var p, m := Pow2(n), Pow2(32 - n);
    FullWord(n);
    ArithmeticIs(x, n);
    OnesQuotient(n);
    SmallPart(x, n);
    Distribute(p, m);
    OrIntoGap(p - 1, Quotient(x, n), 32 - n);
    BitsCommute(Or, Quotient(x, n), (p - 1) * m);
  }

  lemma {:induction false} FullWord(n: nat)
    requires n <= 32
    ensures Pow2(n) * Pow2(32 - n) == 0x1_0000_0000 && Pow2(32 - n) <= 0x1_0000_0000
  {
    hide Pow2;
    PowersOfTwo();
    PowerSum(n, 32 - n);
    var p, m := Pow2(n), Pow2(32 - n);
    Distribute(p, m);
    assert (p - 1) * m >= 0;
  }

  lemma {:induction false} OnesQuotient(n: nat)
    requires n <= 32
    ensures Quotient(0xFFFF_FFFF, n) == Pow2(32 - n) - 1
  {
    hide Pow2;
    FullWord(n);
    var p, m := Pow2(n), Pow2(32 - n);
    Distribute(m, p);
    QuotientIsUnique(0xFFFF_FFFF, p, m - 1, p - 1);
  }

  lemma {:induction false} SmallPart(x: Word, n: nat)
    requires n <= 32
    ensures Quotient(x, n) < Pow2(32 - n)
  {
    hide Pow2;
    FullWord(n);
    BelowQuotient(x, Pow2(n), Pow2(32 - n));
  }

  lemma {:induction false} Distribute(p: int, m: int)
    ensures (p - 1) * m == p * m - m && m * (p - 1) == p * m - m
  {
  }

  /** `sra` divides a two's complement number, rounding down, if and only if it is negative or not moved. */
  lemma {:induction false} ArithmeticExact(s: State, d: Reg, a: Reg, n: Half)
    requires n < 32
    ensures var t := Execute(InsRRL(SRA, d, a, n), s);
      Signed(t.regs[d]) == Signed(s.regs[a]) / Pow2(n) <==> s.regs[a] >= 0x8000_0000 || n == 0
  {
    hide AluImmediate, Pow2;
    ArithmeticValue(s.regs[a], n);
    SignedQuotient(s.regs[a], n);
  }

  lemma {:induction false} SignedQuotient(x: Word, n: nat)
    requires n < 32
    ensures var z := 0x1_0000_0000 - Pow2(32 - n) + Quotient(x, n);
      && 0 <= z < 0x1_0000_0000
      && (Signed(z) == Signed(x) / Pow2(n) <==> x >= 0x8000_0000 || n == 0)
  {
    hide Pow2, Quotient;
    FullWord(n);
    SmallPart(x, n);
    if n == 0 {
      PowerZero();
      QuotientStep(x, 0);
      PowersOfTwo();
    } else {
      UpperHalf(n);
      SignedParts(x, n);
    }
  }

  lemma {:induction false} SignedParts(x: Word, n: nat)
    requires 0 < n < 32
    ensures Signed(x) / Pow2(n) == if x < 0x8000_0000 then Quotient(x, n) else Quotient(x, n) - Pow2(32 - n)
    ensures x >= 0x8000_0000 ==> Quotient(x, n) >= Pow2(31 - n)
  {
    hide Pow2;
    FullWord(n);
    UpperHalf(n);
    if x >= 0x8000_0000 {
      NegativeQuotient(x, Pow2(n), Pow2(32 - n));
      AboveQuotient(x, Pow2(n), Pow2(31 - n));
    }
  }

  lemma {:induction false} PowerZero()
    ensures Pow2(0) == 1 && Pow2(31) == 0x8000_0000
  {
    PowersOfTwo();
  }

  lemma {:induction false} PowerHalf(n: nat)
    requires n > 0
    ensures Pow2(n) == 2 * Pow2(n - 1)
  {
  }

  lemma {:induction false} UpperHalf(n: nat)
    requires n < 32
    requires n > 0
    ensures Pow2(n) * Pow2(31 - n) == 0x8000_0000 && Pow2(32 - n) == 2 * Pow2(31 - n) <= 0x8000_0000
  {
    hide Pow2;
    PowerZero();
    PowerSum(n, 31 - n);
    PowerHalf(32 - n);
    PowerHalf(n);
    var q, h := Pow2(n - 1), Pow2(31 - n);
    assert 2 * q * h == 2 * (q * h) && (q - 1) * h == q * h - h;
    assert (q - 1) * h >= 0;
  }

  lemma {:induction false} AboveQuotient(x: nat, p: nat, h: nat)
    requires p > 0 && x >= p * h
    ensures x / p >= h
  {
    var q := x / p;
    assert x == q * p + x % p;
    assert q < h ==> (h - q - 1) * p >= 0;
  }

  lemma {:induction false} NegativeQuotient(x: int, p: nat, m: int)
    requires p > 0 && 0 <= x
    ensures (x - p * m) / p == x / p - m
  {
    var y := x - p * m;
    assert y == (x / p - m) * p + x % p by { assert x == (x / p) * p + x % p; }
    var d := y / p - (x / p - m);
    assert y == (y / p) * p + y % p;
    assert d * p == (y / p) * p - (x / p - m) * p;
    if d != 0 {
      NoMultipleBetween(d, p);
    }
  }

  /** `lui` fills the upper half and clears the lower. */
  lemma {:induction false} LoadsUpper(s: State, d: Reg, imm: Half)
    ensures var t := Execute(InsRL(LUI, d, imm), s);
      OnlyRegister(s, t, d) && t.regs[d] / 0x1_0000 == imm && t.regs[d] % 0x1_0000 == 0
  {
  }

  // ----- hi and lo -----

  /** All 64 bits of the product. */
  lemma {:induction false} Multiplies(s: State, op: Opcode, a: Reg, b: Reg)
    requires op == MULT || op == MULTU
    ensures var t := Execute(InsRR(op, a, b), s);
      && t == s.(hi := t.hi, lo := t.lo, pc := Wrap(s.pc + 4))
      && t.hi as int * 0x1_0000_0000 + t.lo as int == s.regs[a] as int * s.regs[b] as int
  {
    hide Product;
    ProductWords(s.regs[a], s.regs[b]);
  }

  lemma {:induction false} ProductWords(x: Word, y: Word)
    ensures var p := Product(x, y); p.1 as int * 0x1_0000_0000 + p.0 as int == x as int * y as int
  {
    ProductBound(x, y, 0x1_0000_0000);
    TwoWords(x * y);
  }

  lemma {:induction false} TwoWords(p: int)
    requires 0 <= p < 0x1_0000_0000 * 0x1_0000_0000
    ensures Wrap(p / 0x1_0000_0000) as int * 0x1_0000_0000 + Wrap(p) as int == p
  {
  }

  lemma {:induction false} ProductBound(x: int, y: int, n: int)
    requires 0 <= x < n && 0 <= y < n
    ensures 0 <= x * y < n * n
  {
    assert (n - x) * y == n * y - x * y && (n - x) * y >= 0;
    assert n * (n - y) == n * n - n * y && n * (n - y) > 0;
  }

  /** Quotient and remainder of the unsigned division; by zero it is undefined. */
  lemma {:induction false} Divides(s: State, op: Opcode, a: Reg, b: Reg)
    requires op == DIV || op == DIVU
    ensures var t := Execute(InsRR(op, a, b), s);
      if s.regs[b] == 0 then t == s.(fault := true)
      else
        && t == s.(hi := t.hi, lo := t.lo, pc := Wrap(s.pc + 4))
        && t.lo as int * s.regs[b] as int + t.hi as int == s.regs[a] && t.hi < s.regs[b]
  {
  }

  /** Each of the two is moved to a register and stays. */
  lemma {:induction false} MovesFrom(s: State, d: Reg)
    ensures var t := Execute(InsR(MFHI, d), s); OnlyRegister(s, t, d) && t.regs[d] == s.hi
    ensures var t := Execute(InsR(MFLO, d), s); OnlyRegister(s, t, d) && t.regs[d] == s.lo
  {
  }

  // ----- jumps -----

  /** Equal up to a wrap-around of 32 bits. */
  predicate Congruent(x: int, y: int) {
    (x - y) % 0x1_0000_0000 == 0
  }

  /** Nothing but the program counter changed. */
  predicate OnlyPc(s: State, t: State) {
    t == s.(pc := t.pc)
  }

  /** The program counter, and the link register with the address behind the instruction. */
  predicate Linked(s: State, t: State, r: Reg) {
    t == s.(pc := t.pc, regs := s.regs[r := t.regs[r]]) && Congruent(t.regs[r], s.pc + 4)
  }

  lemma {:induction false} NextTwice(pc: Word)
    ensures Congruent(Wrap(Wrap(pc + 4) + 4), pc + 8)
  {
  }

  lemma {:induction false} WrapCongruent(x: int)
    ensures Congruent(Wrap(x), x)
  {
  }

  /** `j` links nothing, `jal` links `$ra`; both go to the target itself. */
  lemma {:induction false} Jumps(s: State, target: nat)
    requires target < 0x400_0000
    ensures var t := Execute(InsA(J, target), s); OnlyPc(s, t) && t.pc == target
    ensures var t := Execute(InsA(JAL, target), s); Linked(s, t, RA) && t.pc == target
  {
  }

  /** `jr` goes where its register points; `jalr` reads its register after linking. */
  lemma {:induction false} JumpsThrough(s: State, a: Reg, b: Reg)
    ensures var t := Execute(InsR(JR, a), s); OnlyPc(s, t) && t.pc == s.regs[a]
    ensures var t := Execute(InsRR(JALR, a, b), s);
      Linked(s, t, b) && if a == b then Congruent(t.pc, s.pc + 4) else t.pc == s.regs[a]
  {
    hide Wrap, Congruent;
    WrapCongruent(s.pc + 4);
  }

  /** Branches go by their distance from themselves, or on to the next instruction. */
  lemma {:induction false} Branches(s: State, op: Opcode, a: Reg, b: Reg, off: int)
    requires op == BEQ || op == BNE
    ensures var t := Execute(InsRRA(op, a, b, off), s);
      OnlyPc(s, t) && Congruent(t.pc, s.pc + if (s.regs[a] == s.regs[b]) == (op == BEQ) then off else 4)
  {
    hide Wrap, Congruent;
    WrapCongruent(s.pc + 4);
    WrapCongruent(s.pc + off);
  }

  /** The unsigned tests against zero: one always holds, one never, and two are about zero itself. */
  lemma {:induction false} BranchesOnZero(s: State, op: Opcode, r: Reg, off: int)
    requires op == BGEZ || op == BGTZ || op == BLEZ || op == BLTZ
    ensures var t := Execute(InsRA(op, r, off), s);
      && OnlyPc(s, t)
      && Congruent(t.pc, s.pc + if op == BGEZ || (op == BGTZ && s.regs[r] != 0) || (op == BLEZ && s.regs[r] == 0)
                               then off else 4)
  {
    hide Wrap, Congruent;
    WrapCongruent(s.pc + 4);
    WrapCongruent(s.pc + off);
  }

  /** `bgezal` always links and branches; `bltzal` never does, and skips the next instruction. */
  lemma {:induction false} BranchesAndLinks(s: State, r: Reg, off: int)
    ensures var t := Execute(InsRA(BGEZAL, r, off), s); Linked(s, t, RA) && Congruent(t.pc, s.pc + off)
    ensures var t := Execute(InsRA(BLTZAL, r, off), s); OnlyPc(s, t) && Congruent(t.pc, s.pc + 8)
  {
    WrapCongruent(s.pc + 4);
    WrapCongruent(s.pc + off);
    NextTwice(s.pc);
    hide Wrap, Congruent;
  }

  // ----- the instruction word -----

  /** The fields of a word from the top: six bits of opcode, three times five of registers; the immediate is
      the lower half, the absolute address the lower twenty-six bits. */
  lemma {:induction false} FieldsOf(w: Word)
    ensures var r0: int, r1: int, r2: int := Register0(w), Register1(w), Register2(w);
      w == OpcodeField(w) * 0x400_0000 + r0 * 0x20_0000 + r1 * 0x1_0000 + r2 * 0x800 + w % 0x800
    ensures Immediate(w) == w % 0x1_0000 && DirectAddressAbsolute(w) == w % 0x400_0000
  {
    UpperFields(Upper(w));
    LowerFields(w, Upper(w), Lower(w));
    AddressField(w, Upper(w), Lower(w));
  }

  lemma {:induction false} UpperFields(u: int)
    ensures u == u / 1024 * 1024 + u / 32 % 32 * 32 + u % 32
  {
  }

  lemma {:induction false} LowerFields(w: int, u: int, l: int)
    requires w == u * 0x1_0000 + l && 0 <= l < 0x1_0000
    ensures l == l / 0x800 * 0x800 + w % 0x800 && l == w % 0x1_0000
  {
  }

  lemma {:induction false} AddressField(w: int, u: int, l: int)
    requires w == u * 0x1_0000 + l && 0 <= l < 0x1_0000
    ensures w % 0x400_0000 == u % 1024 * 0x1_0000 + l
  {
    var q := u / 1024;
    assert w == q * 0x400_0000 + (u % 1024 * 0x1_0000 + l);
  }

  /** Three registers, as the instruction table has `add`: 0000 00dd ddds ssss tttt t--- ---- ----. */
  lemma {:induction false} EncodesRegisters(op: Opcode, d: Reg, a: Reg, b: Reg, junk: Word)
    requires FormOf(op) == FormRRR
    ensures var r0: int, r1: int, r2: int := d, a, b;
      0 <= EmitRRR(op, d, a, b, junk) - (Number(op) * 0x400_0000 + r0 * 0x20_0000 + r1 * 0x1_0000 + r2 * 0x800) < 0x800
    ensures Number(ADD) == 0
  {
    FieldsOf(EmitRRR(op, d, a, b, junk));
  }

  /** Two registers and an immediate, as the table has `addi`: 0000 01dd ddds ssss iiii iiii iiii iiii. */
  lemma {:induction false} EncodesImmediate(op: Opcode, d: Reg, a: Reg, l: int, junk: Word)
    requires FormOf(op) == FormRRL
    ensures var r0: int, r1: int := d, a;
      EmitRRL(op, d, a, l, junk) == Number(op) * 0x400_0000 + r0 * 0x20_0000 + r1 * 0x1_0000 + l % 0x1_0000
    ensures Number(ADDI) == 1
  {
    FieldsOf(EmitRRL(op, d, a, l, junk));
  }

  /** The opcodes as the header lists them, eight to a row. */
  function Row(i: nat): seq<Opcode> {
    match i
    case 0 => [ADD, ADDI, ADDIU, ADDU, AND, ANDI, BEQ, BGEZ]
    case 1 => [BGEZAL, BGTZ, BLEZ, BLTZ, BLTZAL, BNE, DIV, DIVU]
    case 2 => [J, JAL, JR, LB, LUI, LW, MFHI, MFLO]
    case 3 => [MULT, MULTU, OR, ORI, SB, SLL, SLLV, SLT]
    case 4 => [SLTI, SLTIU, SLTU, SNE, SEQ, SRA, SRL, SRLV]
    case 5 => [SUB, SUBU, SW, SYS, XOR, XORI, JALR, NOR]
    case _ => []
  }

  lemma {:induction false} NumberIsPosition(op: Opcode)
    ensures Number(op) % 8 < |Row(Number(op) / 8)| && Row(Number(op) / 8)[Number(op) % 8] == op
  {
    hide Number, Row;
    if Number(op) < 24 {
      EarlyPosition(op);
    } else {
      LatePosition(op);
    }
  }

  lemma {:induction false} EarlyPosition(op: Opcode)
    requires Number(op) < 24
    ensures Number(op) % 8 < |Row(Number(op) / 8)| && Row(Number(op) / 8)[Number(op) % 8] == op
  {
    hide OpcodeAt;
  }

  lemma {:induction false} LatePosition(op: Opcode)
    requires Number(op) >= 24
    ensures Number(op) % 8 < |Row(Number(op) / 8)| && Row(Number(op) / 8)[Number(op) % 8] == op
  {
    hide OpcodeAt;
  }

  // ----- running -----

  /** Behind the text, or once EXIT has been called, the run stays where it is. */
  lemma {:induction false} StopsBehindText(s: State, n: nat)
    requires s.pc >= s.mem.textLength || s.shouldExit || s.fault
    ensures RunFor(s, n) == s
  {
    HaltedStays(s, n);
  }

  /** In front of it every turn executes the word under the program counter. */
  lemma {:induction false} RunsInside(s: State, n: nat, w: Word, i: Instr)
    requires s.pc < s.mem.textLength && !s.shouldExit && !s.fault
    requires ReadWord(s.mem, s.pc) == Some(w) && Decode(w) == Some(i)
    ensures RunFor(s, n + 1) == RunFor(Execute(i, s), n)
  {
    hide ReadWord, Decode, Execute;
  }

  /** After `reset` all registers are zero but the two stack pointers, which are at the ends of the scratch
      areas their stacks grow from. */
  lemma {:induction false} ResetClears(mem: Memory, hi: Word, lo: Word, r: Reg)
    ensures var s := ResetState(mem, hi, lo);
      && s.pc == 0 && !s.shouldExit && !s.fault && s.exitCode == 0 && s.mem == mem && s.hi == hi && s.lo == lo
      && s.regs[r] == if r == 29 then 0x8000_0100 else if r == 28 then 0xFFFF_0000 else 0
  {
  }
}

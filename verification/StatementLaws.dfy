/** What the statements do that generated code does not use: one-instruction statements in the order of their
    operands, and bytes on the stack. */
module StatementLaws {
  import opened Words
  import opened Isa
  import opened Machine
  import opened Assembly
  import opened Execution
  import opened Frames
  import opened PseudoInstructions
  import InstructionLaws
  import MemoryLaws


  // ----- one-instruction statements -----

  lemma {:induction false} RunsOne(line: Line, i: Instr, c: Cursor, env: Environment, s: State)
    requires LineCode(line, c, env) == [i]
    ensures ExecuteAll(LineCode(line, c, env), s) == Execute(i, s)
  {
    hide Execute, LineCode;
    assert [i][1..] == [];
    assert ExecuteAll([i], s) == ExecuteAll([], Execute(i, s));
  }

  lemma {:induction false} CodeOfNop(c: Cursor, env: Environment)
    requires c.segment.TextSegment?
    ensures LineCode(Nop, c, env) == [InsRRL(SLL, ZERO, ZERO, 0)]
  {
    OneEmission(Nop, c, env);
  }

  lemma {:induction false} CodeOfClr(d: Reg, c: Cursor, env: Environment)
    requires c.segment.TextSegment?
    ensures LineCode(Clr(d), c, env) == [InsRRR(OR, d, ZERO, ZERO)]
  {
    OneEmission(Clr(d), c, env);
  }

  lemma {:induction false} CodeOfBal(target: string, c: Cursor, env: Environment)
    requires c.segment.TextSegment? && target in env
    ensures LineCode(Bal(target), c, env) == [InsRA(BGEZAL, ZERO, Distance(env[target], c.text))]
  {
    OneEmission(Bal(target), c, env);
  }

  lemma {:induction false} CodeOfBranch1(op: Opcode, r: Reg, target: string, c: Cursor, env: Environment)
    requires c.segment.TextSegment? && target in env
    ensures LineCode(Branch1(op, r, target), c, env) == [InsRA(op, r, Distance(env[target], c.text))]
  {
    OneEmission(Branch1(op, r, target), c, env);
  }

  lemma {:induction false} CodeOfJump(op: Opcode, address: Address, c: Cursor, env: Environment)
    requires c.segment.TextSegment? && address.target in env && env[address.target] < 0x400_0000
    ensures LineCode(Jump(op, address), c, env) == [InsA(op, env[address.target])]
  {
    OneEmission(Jump(op, address), c, env);
  }

  lemma {:induction false} CodeOfLui(r: Reg, l: int, c: Cursor, env: Environment)
    requires c.segment.TextSegment?
    ensures LineCode(Lui(r, l), c, env) == [InsRL(LUI, r, LowHalf(l))]
  {
    OneEmission(Lui(r, l), c, env);
  }

  lemma {:induction false} CodeOfOp1(op: Opcode, r: Reg, c: Cursor, env: Environment)
    requires c.segment.TextSegment?
    ensures LineCode(Op1(op, r), c, env) == [InsR(op, r)]
  {
    OneEmission(Op1(op, r), c, env);
  }

  lemma {:induction false} CodeOfOp2(op: Opcode, a: Reg, b: Reg, c: Cursor, env: Environment)
    requires c.segment.TextSegment?
    ensures LineCode(Op2(op, a, b), c, env) == [InsRR(op, a, b)]
  {
    OneEmission(Op2(op, a, b), c, env);
  }

  lemma {:induction false} ExecuteNop(s: State)
    ensures Execute(InsRRL(SLL, ZERO, ZERO, 0), s) == s.(pc := Wrap(s.pc + 4))
  {
    var x := s.regs[ZERO];
    assert ShiftLeft(x, 0) == Some(x);
    assert s.regs[ZERO := x] == s.regs;
  }

  /** `nop` changes nothing. */
  lemma {:induction false} RunNop(c: Cursor, env: Environment, s: State)
    requires c.segment.TextSegment?
    ensures ExecuteAll(LineCode(Nop, c, env), s) == s.(pc := Wrap(s.pc + 4))
  {
    hide LineCode, Execute, ExecuteAll;
    CodeOfNop(c, env);
    RunsOne(Nop, InsRRL(SLL, ZERO, ZERO, 0), c, env, s);
    ExecuteNop(s);
  }

  lemma {:induction false} ExecuteClr(s: State, d: Reg)
    requires s.regs[ZERO] == 0
    ensures Execute(InsRRR(OR, d, ZERO, ZERO), s) == s.(regs := s.regs[d := 0], pc := Wrap(s.pc + 4))
  {
    hide Wrap;
    OrZero(0);
  }

  /** `clr` clears any register. */
  lemma {:induction false} RunClr(d: Reg, c: Cursor, env: Environment, s: State)
    requires c.segment.TextSegment? && s.regs[ZERO] == 0
    ensures ExecuteAll(LineCode(Clr(d), c, env), s) == s.(regs := s.regs[d := 0], pc := Wrap(s.pc + 4))
  {
    hide LineCode, Execute, ExecuteAll;
    CodeOfClr(d, c, env);
    RunsOne(Clr(d), InsRRR(OR, d, ZERO, ZERO), c, env, s);
    ExecuteClr(s, d);
  }

  lemma {:induction false} ExecuteBal(s: State, target: nat)
    requires target < BRANCH_RANGE && s.pc + 4 < BRANCH_RANGE
    ensures Execute(InsRA(BGEZAL, ZERO, Distance(target, s.pc)), s) == s.(regs := s.regs[RA := s.pc + 4], pc := target)
  {
    hide Distance, Wrap;
    SmallWords(s.pc + 4, target);
    NearAddress(target, s.pc, 0);
  }

  /** `bal` goes to its label and leaves the address behind it in `$ra`. */
  lemma {:induction false} RunBal(target: string, c: Cursor, env: Environment, s: State)
    requires c.segment.TextSegment? && s.pc == c.text && c.text + 4 < BRANCH_RANGE
    requires target in env && env[target] < BRANCH_RANGE
    ensures ExecuteAll(LineCode(Bal(target), c, env), s) == s.(regs := s.regs[RA := c.text + 4], pc := env[target])
  {
    hide LineCode, Execute, ExecuteAll, Distance;
    CodeOfBal(target, c, env);
    RunsOne(Bal(target), InsRA(BGEZAL, ZERO, Distance(env[target], c.text)), c, env, s);
    ExecuteBal(s, env[target]);
  }

  lemma {:induction false} ExecuteAgainstZero(s: State, op: Opcode, r: Reg, target: nat)
    requires AgainstZero(op) && target < BRANCH_RANGE && s.pc + 4 < BRANCH_RANGE
    ensures Execute(InsRA(op, r, Distance(target, s.pc)), s)
      == s.(pc := if HoldsAgainstZero(op, s.regs[r]) then target else s.pc + 4)
  {
    hide Distance, Wrap;
    SmallWords(s.pc + 4, target);
    NearAddress(target, s.pc, 0);
  }

  /** `bgez`, `bgtz`, `blez` and `bltz` go to their label if the unsigned test holds. */
  lemma {:induction false} RunAgainstZero(op: Opcode, r: Reg, target: string, c: Cursor, env: Environment, s: State)
    requires AgainstZero(op) && c.segment.TextSegment? && s.pc == c.text && c.text + 4 < BRANCH_RANGE
    requires target in env && env[target] < BRANCH_RANGE
    ensures ExecuteAll(LineCode(Branch1(op, r, target), c, env), s)
      == s.(pc := if HoldsAgainstZero(op, s.regs[r]) then env[target] else c.text + 4)
  {
    hide LineCode, Execute, ExecuteAll, Distance;
    CodeOfBranch1(op, r, target, c, env);
    RunsOne(Branch1(op, r, target), InsRA(op, r, Distance(env[target], c.text)), c, env, s);
    ExecuteAgainstZero(s, op, r, env[target]);
  }

  lemma {:induction false} ExecuteJump(s: State, op: Opcode, target: nat)
    requires (op == J || op == JAL) && target < 0x400_0000 && s.pc + 4 < BRANCH_RANGE
    ensures Execute(InsA(op, target), s)
      == s.(regs := if op == JAL then s.regs[RA := s.pc + 4] else s.regs, pc := target)
  {
    hide Wrap;
    SmallWords(s.pc + 4, target);
  }

  /** `j` and `jal` go to any label of the text segment. */
  lemma {:induction false} RunJump(op: Opcode, address: Address, c: Cursor, env: Environment, s: State)
    requires (op == J || op == JAL) && c.segment.TextSegment? && s.pc == c.text && c.text + 4 < BRANCH_RANGE
    requires address.target in env && env[address.target] < 0x400_0000
    ensures ExecuteAll(LineCode(Jump(op, address), c, env), s)
      == s.(regs := if op == JAL then s.regs[RA := c.text + 4] else s.regs, pc := env[address.target])
  {
    hide LineCode, Execute, ExecuteAll;
    CodeOfJump(op, address, c, env);
    RunsOne(Jump(op, address), InsA(op, env[address.target]), c, env, s);
    ExecuteJump(s, op, env[address.target]);
  }

  lemma {:induction false} CodeOfBgtu(a: Reg, b: Reg, target: string, c: Cursor, env: Environment)
    requires c.segment.TextSegment? && target in env
    ensures LineCode(Bgtu(a, b, target), c, env)
      == [InsRRR(SLTU, AT, a, b), InsRRA(BEQ, AT, ZERO, Distance(env[target], c.text + 4))]
  {
    TwoEmissions(Bgtu(a, b, target), c, env);
  }

  /** `bgtu` goes to its label if the first register is not below the second: for equal ones, too. */
  lemma {:induction false} RunBgtu(a: Reg, b: Reg, target: string, c: Cursor, env: Environment, s: State)
    requires c.segment.TextSegment? && s.pc == c.text && c.text + 8 < BRANCH_RANGE && s.regs[ZERO] == 0
    requires target in env && env[target] < BRANCH_RANGE
    ensures var t := ExecuteAll(LineCode(Bgtu(a, b, target), c, env), s);
      t == s.(regs := s.regs[AT := t.regs[AT]], pc := if s.regs[a] >= s.regs[b] then env[target] else c.text + 8)
  {
    hide LineCode, Execute, ExecuteAll, Distance, Wrap;
    CodeOfBgtu(a, b, target, c, env);
    ExecuteTwo(InsRRR(SLTU, AT, a, b), InsRRA(BEQ, AT, ZERO, Distance(env[target], c.text + 4)), s);
    var m := SetsAt(s, a, b);
    ExecuteBranch(m, BEQ, AT, ZERO, env[target]);
  }

  lemma {:induction false} SetsAt(s: State, a: Reg, b: Reg) returns (m: State)
    requires s.pc + 4 < BRANCH_RANGE
    ensures m == Execute(InsRRR(SLTU, AT, a, b), s)
    ensures m == s.(regs := s.regs[AT := if s.regs[a] < s.regs[b] then 1 else 0], pc := s.pc + 4)
  {
    hide Execute, Wrap;
    SmallWords(s.pc + 4, 0);
    InstructionLaws.Compares(s, SLTU, AT, a, b);
    m := Execute(InsRRR(SLTU, AT, a, b), s);
  }

  /** Two-register `mult` and `div` work on their registers in the order written, `jalr` jumps through the
      first and links the second. */
  lemma {:induction false} RunTwoRegisters(op: Opcode, a: Reg, b: Reg, c: Cursor, env: Environment, s: State)
    requires c.segment.TextSegment? && FormOf(op) == FormRR
    ensures var t := ExecuteAll(LineCode(Op2(op, a, b), c, env), s);
      && (op == MULT || op == MULTU ==>
            && t == s.(hi := t.hi, lo := t.lo, pc := Wrap(s.pc + 4))
            && t.hi as int * 0x1_0000_0000 + t.lo as int == s.regs[a] as int * s.regs[b] as int)
      && ((op == DIV || op == DIVU) && s.regs[b] != 0 ==>
            && t == s.(hi := t.hi, lo := t.lo, pc := Wrap(s.pc + 4))
            && t.lo as int * s.regs[b] as int + t.hi as int == s.regs[a] && t.hi < s.regs[b])
      && (op == JALR && a != b ==> t == s.(regs := s.regs[b := Wrap(s.pc + 4)], pc := s.regs[a]))
  {
    hide LineCode, ExecuteAll, Execute;
    CodeOfOp2(op, a, b, c, env);
    RunsOne(Op2(op, a, b), InsRR(op, a, b), c, env, s);
    TwoRegisters(op, a, b, s);
  }

  lemma {:induction false} TwoRegisters(op: Opcode, a: Reg, b: Reg, s: State)
    requires FormOf(op) == FormRR
    ensures var t := Execute(InsRR(op, a, b), s);
      && (op == MULT || op == MULTU ==>
            && t == s.(hi := t.hi, lo := t.lo, pc := Wrap(s.pc + 4))
            && t.hi as int * 0x1_0000_0000 + t.lo as int == s.regs[a] as int * s.regs[b] as int)
      && ((op == DIV || op == DIVU) && s.regs[b] != 0 ==>
            && t == s.(hi := t.hi, lo := t.lo, pc := Wrap(s.pc + 4))
            && t.lo as int * s.regs[b] as int + t.hi as int == s.regs[a] && t.hi < s.regs[b])
      && (op == JALR && a != b ==> t == s.(regs := s.regs[b := Wrap(s.pc + 4)], pc := s.regs[a]))
  {
    hide Product;
    if op == MULT || op == MULTU {
      InstructionLaws.Multiplies(s, op, a, b);
    } else if op == DIV || op == DIVU {
      InstructionLaws.Divides(s, op, a, b);
    }
  }

  /** `lui` fills the upper half; `jr`, `mfhi` and `mflo` take one register. */
  lemma {:induction false} RunOneRegister(r: Reg, l: int, c: Cursor, env: Environment, s: State)
    requires c.segment.TextSegment?
    ensures ExecuteAll(LineCode(Lui(r, l), c, env), s)
      == s.(regs := s.regs[r := LowHalf(l) as int * 0x1_0000], pc := Wrap(s.pc + 4))
    ensures ExecuteAll(LineCode(Op1(JR, r), c, env), s) == s.(pc := s.regs[r])
    ensures ExecuteAll(LineCode(Op1(MFHI, r), c, env), s) == s.(regs := s.regs[r := s.hi], pc := Wrap(s.pc + 4))
    ensures ExecuteAll(LineCode(Op1(MFLO, r), c, env), s) == s.(regs := s.regs[r := s.lo], pc := Wrap(s.pc + 4))
  {
    hide LineCode, ExecuteAll, Execute, LowHalf;
    CodeOfLui(r, l, c, env);
    CodeOfOp1(JR, r, c, env);
    CodeOfOp1(MFHI, r, c, env);
    CodeOfOp1(MFLO, r, c, env);
    RunsOne(Lui(r, l), InsRL(LUI, r, LowHalf(l)), c, env, s);
    RunsOne(Op1(JR, r), InsR(JR, r), c, env, s);
    RunsOne(Op1(MFHI, r), InsR(MFHI, r), c, env, s);
    RunsOne(Op1(MFLO, r), InsR(MFLO, r), c, env, s);
    ExecuteOneRegister(s, r, LowHalf(l));
  }

  lemma {:induction false} ExecuteOneRegister(s: State, r: Reg, imm: Half)
    ensures Execute(InsRL(LUI, r, imm), s) == s.(regs := s.regs[r := imm as int * 0x1_0000], pc := Wrap(s.pc + 4))
    ensures Execute(InsR(JR, r), s) == s.(pc := s.regs[r])
    ensures Execute(InsR(MFHI, r), s) == s.(regs := s.regs[r := s.hi], pc := Wrap(s.pc + 4))
    ensures Execute(InsR(MFLO, r), s) == s.(regs := s.regs[r := s.lo], pc := Wrap(s.pc + 4))
  {
    hide Execute;
    InstructionLaws.MovesFrom(s, r);
    ExecuteLuiJr(s, r, imm);
  }

  lemma {:induction false} ExecuteLuiJr(s: State, r: Reg, imm: Half)
    ensures Execute(InsRL(LUI, r, imm), s) == s.(regs := s.regs[r := imm as int * 0x1_0000], pc := Wrap(s.pc + 4))
    ensures Execute(InsR(JR, r), s) == s.(pc := s.regs[r])
  {
    hide Wrap;
  }

  // ----- bytes on the stack -----

  lemma {:induction false} CodeOfPushb(r: Reg, c: Cursor, env: Environment)
    requires c.segment.TextSegment?
    ensures LineCode(Pushb(r), c, env) == [InsRRL(ADDI, SP, SP, LowHalf(-1)), AtTop(SB, r, c.text + 4)]
  {
    TwoEmissions(Pushb(r), c, env);
  }

  lemma {:induction false} CodeOfPopb(r: Reg, c: Cursor, env: Environment)
    requires c.segment.TextSegment?
    ensures LineCode(Popb(r), c, env) == [AtTop(LB, r, c.text), InsRRL(ADDI, SP, SP, LowHalf(1))]
  {
    TwoEmissions(Popb(r), c, env);
  }

  lemma {:induction false} ExecuteByteStep(s: State, k: int)
    requires k == 1 || k == -1
    ensures Execute(InsRRL(ADDI, SP, SP, LowHalf(k)), s)
      == s.(regs := s.regs[SP := Wrap(s.regs[SP] + k)], pc := Wrap(s.pc + 4))
  {
    assert SignExtend(LowHalf(k)) == k;
  }

  lemma {:induction false} StoreByteAtTop(s: State, r: Reg)
    requires s.pc + 4 < BRANCH_RANGE
    ensures Execute(AtTop(SB, r, s.pc), s) == Store(s, WriteByte(s.mem, s.regs[SP], s.regs[r] % 0x100))
  {
    hide WriteByte, Distance, Store;
    NearAddress(0, s.pc, s.regs[SP]);
  }

  lemma {:induction false} LoadByteAtTop(s: State, r: Reg)
    requires s.pc + 4 < BRANCH_RANGE
    ensures Execute(AtTop(LB, r, s.pc), s) == SetRegister(s, r, ReadByte(s.mem, s.regs[SP]))
  {
    hide ReadByte, Distance, SetRegister;
    NearAddress(0, s.pc, s.regs[SP]);
  }

  /** `pushb r` then `popb d`, for two registers that are not `$sp`: the low byte arrives, the stack pointer is
      back, and only the byte below the stack top has changed. */
  lemma {:induction false} PushPopByte(r: Reg, d: Reg, c: Cursor, env: Environment, s: State) returns (t: State)
    requires c.segment.TextSegment? && s.pc == c.text && c.text + 16 < BRANCH_RANGE && s.regs[SP] >= 1
    requires r != SP && d != SP && WriteByte(s.mem, s.regs[SP] - 1, s.regs[r] % 0x100).Some?
    ensures t == ExecuteAll(LineCode(Popb(d), c.(text := c.text + 8), env), ExecuteAll(LineCode(Pushb(r), c, env), s))
    ensures t == s.(regs := s.regs[d := s.regs[r] % 0x100], pc := c.text + 16,
                    mem := WriteByte(s.mem, s.regs[SP] - 1, s.regs[r] % 0x100).value)
  {
    hide LineCode, Execute, ReadByte, WriteByte, ExecuteAll, AtTop, LowHalf, Wrap, SetRegister;
    var c' := c.(text := c.text + 8);
    CodeOfPushb(r, c, env);
    CodeOfPopb(d, c', env);
    var m := ExecutePushByte(r, s);
    ExecuteTwo(InsRRL(ADDI, SP, SP, LowHalf(-1)), AtTop(SB, r, s.pc + 4), s);
    MemoryLaws.WriteByteThenRead(s.mem, s.regs[SP] - 1, s.regs[r] % 0x100, s.regs[SP] - 1);
    t := ExecutePopByte(d, m);
    ExecuteTwo(AtTop(LB, d, m.pc), InsRRL(ADDI, SP, SP, LowHalf(1)), m);
    BackAgain(s.regs, d, s.regs[r] % 0x100);
  }

  lemma {:induction false} ExecutePushByte(r: Reg, s: State) returns (m: State)
    requires s.pc + 8 < BRANCH_RANGE && s.regs[SP] >= 1 && r != SP
    requires WriteByte(s.mem, s.regs[SP] - 1, s.regs[r] % 0x100).Some?
    ensures m == Execute(AtTop(SB, r, s.pc + 4), Execute(InsRRL(ADDI, SP, SP, LowHalf(-1)), s))
    ensures m == s.(regs := s.regs[SP := s.regs[SP] - 1], pc := s.pc + 8,
                    mem := WriteByte(s.mem, s.regs[SP] - 1, s.regs[r] % 0x100).value)
  {
    hide Execute, WriteByte, AtTop, LowHalf, Wrap;
    SmallWords(s.pc + 4, s.pc + 8);
    SmallWords(s.regs[SP] - 1, 0);
    var h := s.(regs := s.regs[SP := s.regs[SP] - 1], pc := s.pc + 4);
    ExecuteByteStep(s, -1);
    StoreByteAtTop(h, r);
    m := Execute(AtTop(SB, r, s.pc + 4), h);
  }

  lemma {:induction false} ExecutePopByte(d: Reg, s: State) returns (t: State)
    requires s.pc + 8 < BRANCH_RANGE && d != SP && s.regs[SP] < 0xFFFF_FFFF && ReadByte(s.mem, s.regs[SP]).Some?
    ensures t == Execute(InsRRL(ADDI, SP, SP, LowHalf(1)), Execute(AtTop(LB, d, s.pc), s))
    ensures t == s.(regs := s.regs[d := ReadByte(s.mem, s.regs[SP]).value][SP := s.regs[SP] + 1], pc := s.pc + 8)
  {
    hide Execute, ReadByte, AtTop, LowHalf, Wrap;
    SmallWords(s.pc + 4, s.pc + 8);
    SmallWords(s.regs[SP] + 1, 0);
    LoadByteAtTop(s, d);
    var h := s.(regs := s.regs[d := ReadByte(s.mem, s.regs[SP]).value], pc := s.pc + 4);
    ExecuteByteStep(h, 1);
    t := Execute(InsRRL(ADDI, SP, SP, LowHalf(1)), h);
  }

  lemma {:induction false} BackAgain(regs: Registers, d: Reg, v: Word)
    requires regs[SP] >= 1 && d != SP
    ensures regs[SP := regs[SP] - 1][d := v][SP := regs[SP] - 1 + 1] == regs[d := v]
  {
  }
}

/** Pseudo-instructions do in one line what their names say, wherever `$zero` is zero. (`li`, `la`, `copy`,
    `b`, `beqz`, `rem`, `enter` and `ret` are with the code that uses them.) */
module PseudoInstructions {
  import opened Words
  import opened Isa
  import opened Machine
  import opened Assembly
  import opened Execution
  import opened Frames

  /** Instructions executed one after the other. */
  function ExecuteAll(code: seq<Instr>, s: State): State {
    if code == [] then s else ExecuteAll(code[1..], Execute(code[0], s))
  }

  // ----- comparing branches -----

  predicate Compares(line: Line) {
    line.Bgt? || line.Blt? || line.Bge? || line.Ble?
  }

  /** Unsigned comparison. */
  predicate Holds(line: Line, x: Word, y: Word)
    requires Compares(line)
  {
    match line
    case Bgt(_, _, _) => x > y
    case Blt(_, _, _) => x < y
    case Bge(_, _, _) => x >= y
    case Ble(_, _, _) => x <= y
  }

  /** `slt $at` and the test of `$at`. */
  lemma CodeOfCompare(line: Line, c: Cursor, env: Environment)
    requires c.segment.TextSegment? && Compares(line)
    ensures var swapped := line.Bgt? || line.Ble?;
      && LineCode(line, c, env) == [
           InsRRR(SLT, AT, if swapped then line.b else line.a, if swapped then line.a else line.b),
           InsRRA(if line.Bgt? || line.Blt? then BNE else BEQ, AT, ZERO,
                  Distance(ValueOf(line.target, env), c.text + 4))]
      && Next(line, c) == c.(text := c.text + 8)
  {
    TwoEmissions(line, c, env);
  }

  lemma ExecuteSlt(s: State, x: Reg, y: Reg)
    ensures Execute(InsRRR(SLT, AT, x, y), s)
      == s.(regs := s.regs[AT := Flag(s.regs[x] < s.regs[y])], pc := Wrap(s.pc + 4))
  {
  }

  /** The comparison of the operands as two's complement numbers. */
  predicate HoldsSigned(line: Line, x: Word, y: Word)
    requires Compares(line)
  {
    match line
    case Bgt(_, _, _) => Signed(x) > Signed(y)
    case Blt(_, _, _) => Signed(x) < Signed(y)
    case Bge(_, _, _) => Signed(x) >= Signed(y)
    case Ble(_, _, _) => Signed(x) <= Signed(y)
  }

  /** The branch is that of the signed comparison exactly when both operands are on the same side of 2^31. */
  lemma SignedExact(line: Line, x: Word, y: Word)
    requires Compares(line)
    ensures Holds(line, x, y) == HoldsSigned(line, x, y) <==> (x < 0x8000_0000 <==> y < 0x8000_0000)
  {
  }

  predicate AgainstZero(op: Opcode) {
    op == BGEZ || op == BGTZ || op == BLEZ || op == BLTZ
  }

  predicate HoldsAgainstZero(op: Opcode, x: int)
    requires AgainstZero(op)
  {
    match op
    case BGEZ => x >= 0
    case BGTZ => x > 0
    case BLEZ => x <= 0
    case BLTZ => x < 0
  }

  /** The branches against zero are those of the signed comparison exactly when the register is below 2^31,
      unless the branch leads to the next instruction anyway. */
  lemma {:induction false} AgainstZeroExact(s: State, op: Opcode, r: Reg, off: int)
    requires AgainstZero(op) && ResolveOffset(s, 0, off) != Wrap(s.pc + INSTRUCTION_SIZE)
    ensures Execute(InsRA(op, r, off), s) == JumpIf(s, HoldsAgainstZero(op, Signed(s.regs[r])), off)
      <==> s.regs[r] < 0x8000_0000
  {
  }

  /** The pair of instructions all four share. */
  lemma {:induction false} RunSltBranch(w: World, lines: seq<Line>, c: Cursor, s: State, x: Reg, y: Reg, op: Opcode,
                                        target: string)
    returns (t: State)
    requires lines != [] && Emits(lines[0]) && (op == BNE || op == BEQ) && Linked(w, lines, c) && AtCursor(w, s, c)
    requires target in w.env && w.env[target] < BRANCH_RANGE && Next(lines[0], c) == c.(text := c.text + 8)
    requires LineCode(lines[0], c, w.env)
      == [InsRRR(SLT, AT, x, y), InsRRA(op, AT, ZERO, Distance(w.env[target], c.text + 4))]
    ensures var taken := (s.regs[x] < s.regs[y]) == (op == BNE);
      t == s.(regs := s.regs[AT := Flag(s.regs[x] < s.regs[y])], pc := if taken then w.env[target] else c.text + 8)
    ensures Reaches(w, s, t) && Linked(w, lines[1..], c.(text := c.text + 8)) && c.text + 8 < BRANCH_RANGE
  {
    hide Emissions, Expand, Listing, LineCode, Next, Linked, Loaded, Decode, Reaches, ReadWord, WriteWord, Execute, Distance;
    ExecuteSlt(s, x, y);
    t := RunLineTwo(w, lines, c, s, InsRRR(SLT, AT, x, y), InsRRA(op, AT, ZERO, Distance(w.env[target], c.text + 4)));
    ExecuteBranch(Execute(InsRRR(SLT, AT, x, y), s), op, AT, ZERO, w.env[target]);
  }

  /** `bgt`, `blt`, `bge` and `ble` branch exactly on the unsigned comparison, and change only `$at` and
      the program counter. */
  lemma {:induction false} RunCompare(w: World, lines: seq<Line>, c: Cursor, s: State) returns (t: State)
    requires lines != [] && Compares(lines[0]) && Linked(w, lines, c) && AtCursor(w, s, c)
    requires lines[0].target in w.env && w.env[lines[0].target] < BRANCH_RANGE
    ensures var taken := Holds(lines[0], s.regs[lines[0].a], s.regs[lines[0].b]);
      t == s.(regs := s.regs[AT := t.regs[AT]], pc := if taken then w.env[lines[0].target] else c.text + 8)
    ensures Reaches(w, s, t) && Linked(w, lines[1..], c.(text := c.text + 8)) && c.text + 8 < BRANCH_RANGE
  {
    hide Emissions, Expand, Listing, LineCode, Next, Linked, Loaded, Decode, Reaches, ReadWord, WriteWord, Execute;
    var line := lines[0];
    CodeOfCompare(line, c, w.env);
    var swapped := line.Bgt? || line.Ble?;
    t := RunSltBranch(w, lines, c, s, if swapped then line.b else line.a, if swapped then line.a else line.b,
                      if line.Bgt? || line.Blt? then BNE else BEQ, line.target);
  }

  // ----- branches on a literal -----

  lemma LiteralEmissions(line: Line, c: Cursor)
    requires line.BeqLit? || line.BneLit?
    ensures Emissions(line, c)
      == [PutRRL(ORI, AT, ZERO, line.l), PutBranch2(if line.BeqLit? then BEQ else BNE, line.a, AT, line.target)]
    ensures Size(Emissions(line, c)[0]) == 4 == Size(Emissions(line, c)[1])
    ensures FormOf(ORI) == FormRRL
  {
  }

  lemma CodeOfLiteralBranch(line: Line, c: Cursor, env: Environment)
    requires c.segment.TextSegment? && (line.BeqLit? || line.BneLit?)
    ensures LineCode(line, c, env) == [
        InsRRL(ORI, AT, ZERO, LowHalf(line.l)),
        InsRRA(if line.BeqLit? then BEQ else BNE, line.a, AT, Distance(ValueOf(line.target, env), c.text + 4))]
    ensures Next(line, c) == c.(text := c.text + 8)
  {
    hide Distance, Upper, Lower, Size;
    TwoEmissions(line, c, env);
    LiteralEmissions(line, c);
  }

  lemma ExecuteOri(s: State, imm: Half)
    requires s.regs[ZERO] == 0
    ensures Execute(InsRRL(ORI, AT, ZERO, imm), s) == s.(regs := s.regs[AT := imm], pc := Wrap(s.pc + 4))
  {
    hide Execute;
    ExecuteOrImmediate(s, AT, ZERO, imm);
    OrZero(imm);
  }

  /** `beq` and `bne` with a literal compare with its low sixteen bits; `$at` itself is lost before it is
      compared. */
  lemma {:induction false} RunLiteralBranch(w: World, lines: seq<Line>, c: Cursor, s: State) returns (t: State)
    requires lines != [] && (lines[0].BeqLit? || lines[0].BneLit?)
    requires Linked(w, lines, c) && AtCursor(w, s, c)
    requires lines[0].target in w.env && w.env[lines[0].target] < BRANCH_RANGE
    ensures var equal := lines[0].a == AT || s.regs[lines[0].a] == LowHalf(lines[0].l);
      t == s.(regs := s.regs[AT := LowHalf(lines[0].l)],
              pc := if equal == lines[0].BeqLit? then w.env[lines[0].target] else c.text + 8)
    ensures Reaches(w, s, t) && Linked(w, lines[1..], c.(text := c.text + 8)) && c.text + 8 < BRANCH_RANGE
  {
    hide Emissions, Expand, Listing, LineCode, Next, Linked, Loaded, Decode, Reaches, ReadWord, WriteWord, Bits, LowHalf,
      Distance, Execute;
    var line := lines[0];
    var op := if line.BeqLit? then BEQ else BNE;
    CodeOfLiteralBranch(line, c, w.env);
    ExecuteOri(s, LowHalf(line.l));
    t := RunLineTwo(w, lines, c, s, InsRRL(ORI, AT, ZERO, LowHalf(line.l)),
                    InsRRA(op, line.a, AT, Distance(w.env[line.target], c.text + 4)));
    ExecuteBranch(Execute(InsRRL(ORI, AT, ZERO, LowHalf(line.l)), s), op, line.a, AT, w.env[line.target]);
  }

  /** That is the comparison with the literal itself, for every register value, exactly when the literal
      has no other bits. */
  lemma LiteralBranchExact(l: int)
    ensures (forall x: Word :: ComparesWith(x, l)) <==> Wrap(l) < 0x1_0000
  {
    var v: Word := Wrap(l);
    assert LowHalf(l) == v % 0x1_0000;
    if v >= 0x1_0000 {
      assert !ComparesWith(v, l);
    }
  }

  predicate ComparesWith(x: Word, l: int) {
    x == LowHalf(l) <==> x == Wrap(l)
  }

  // ----- stack -----

  lemma CodeOfPushw(r: Reg, c: Cursor, env: Environment)
    requires c.segment.TextSegment?
    ensures LineCode(Pushw(r), c, env) == [InsRRL(ADDI, SP, SP, DOWN), AtTop(SW, r, c.text + 4)]
    ensures Next(Pushw(r), c) == c.(text := c.text + 8)
  {
    TwoEmissions(Pushw(r), c, env);
  }

  lemma CodeOfPopw(r: Reg, c: Cursor, env: Environment)
    requires c.segment.TextSegment?
    ensures LineCode(Popw(r), c, env) == [AtTop(LW, r, c.text), InsRRL(ADDI, SP, SP, UP)]
    ensures Next(Popw(r), c) == c.(text := c.text + 8)
  {
    TwoEmissions(Popw(r), c, env);
  }

  lemma ExecuteMoveSp(s: State, k: int)
    requires k == 4 || k == -4
    ensures Execute(InsRRL(ADDI, SP, SP, LowHalf(k)), s)
      == s.(regs := s.regs[SP := Wrap(s.regs[SP] + k)], pc := Wrap(s.pc + 4))
  {
    assert SignExtend(LowHalf(k)) == k;
  }

  lemma ExecuteAtTop(s: State, r: Reg)
    requires s.pc + 4 < BRANCH_RANGE
    ensures Execute(AtTop(SW, r, s.pc), s) == Store(s, WriteWord(s.mem, s.regs[SP], s.regs[r]))
    ensures Execute(AtTop(LW, r, s.pc), s) == SetRegister(s, r, ReadWord(s.mem, s.regs[SP]))
  {
    hide WriteWord, ReadWord, Distance;
    NearAddress(0, s.pc, s.regs[SP]);
  }

  lemma ExecuteTwo(i: Instr, j: Instr, s: State)
    ensures ExecuteAll([i, j], s) == Execute(j, Execute(i, s))
  {
    hide Execute;
    var code, rest := [i, j], [j];
    assert code[1..] == rest && rest[1..] == [];
    assert ExecuteAll(rest, Execute(i, s)) == ExecuteAll([], Execute(j, Execute(i, s)));
  }

  /** `pushw r` stores the register below the stack; `$sp` itself is stored already moved. */
  lemma PushStores(r: Reg, c: Cursor, env: Environment, s: State)
    requires c.segment.TextSegment? && s.pc == c.text && c.text + 8 < BRANCH_RANGE && s.regs[SP] >= 4
    requires WriteWord(s.mem, s.regs[SP] - 4, PushedWord(s, r)).Some?
    ensures ExecuteAll(LineCode(Pushw(r), c, env), s)
      == s.(regs := s.regs[SP := s.regs[SP] - 4], pc := c.text + 8,
            mem := WriteWord(s.mem, s.regs[SP] - 4, PushedWord(s, r)).value)
  {
    hide LineCode, Execute, WriteWord, AtTop, ExecuteAll, Next, DOWN;
    CodeOfPushw(r, c, env);
    ExecutePush(r, s);
  }

  lemma SmallWords(a: Word, b: Word)
    ensures Wrap(a) == a && Wrap(b) == b
  {
  }

  lemma ExecutePush(r: Reg, s: State)
    requires s.pc + 8 < BRANCH_RANGE && s.regs[SP] >= 4
    requires WriteWord(s.mem, s.regs[SP] - 4, PushedWord(s, r)).Some?
    ensures ExecuteAll([InsRRL(ADDI, SP, SP, DOWN), AtTop(SW, r, s.pc + 4)], s)
      == s.(regs := s.regs[SP := s.regs[SP] - 4], pc := s.pc + 8,
            mem := WriteWord(s.mem, s.regs[SP] - 4, PushedWord(s, r)).value)
  {
    hide Execute, WriteWord, AtTop, ExecuteAll, LowHalf, Wrap;
    SmallWords(s.pc + 4, s.pc + 8);
    SmallWords(s.regs[SP] - 4, 0);
    var m := s.(regs := s.regs[SP := s.regs[SP] - 4], pc := s.pc + 4);
    ExecuteMoveSp(s, -4);
    ExecuteAtTop(m, r);
    ExecuteTwo(InsRRL(ADDI, SP, SP, DOWN), AtTop(SW, r, s.pc + 4), s);
  }

  function PushedWord(s: State, r: Reg): Word
    requires s.regs[SP] >= 4
  {
    if r == SP then s.regs[SP] - 4 else s.regs[r]
  }

  function Above(a: Word): Word {
    Wrap(a as int + 4)
  }

  /** A word popped: into `$sp` it is loaded first and moved then. */
  function Popped(regs: Registers, d: Reg, v: Word): Registers {
    if d == SP then regs[SP := Above(v)] else regs[d := v][SP := Above(regs[SP])]
  }

  lemma MoveAfterLoad(regs: Registers, d: Reg, v: Word)
    ensures var m := regs[d := v]; m[SP := Above(m[SP])] == Popped(regs, d, v)
  {
  }

  /** `popw d` loads the word at the stack top and moves the stack pointer. */
  lemma PopLoads(d: Reg, c: Cursor, env: Environment, s: State)
    requires c.segment.TextSegment? && s.pc == c.text && c.text + 8 < BRANCH_RANGE
    requires ReadWord(s.mem, s.regs[SP]).Some?
    ensures ExecuteAll(LineCode(Popw(d), c, env), s)
      == s.(regs := Popped(s.regs, d, ReadWord(s.mem, s.regs[SP]).value), pc := c.text + 8)
  {
    hide LineCode, Execute, ReadWord, AtTop, ExecuteAll, Popped, Next, UP;
    CodeOfPopw(d, c, env);
    ExecutePop(d, s);
  }

  lemma ExecutePop(d: Reg, s: State)
    requires s.pc + 8 < BRANCH_RANGE && ReadWord(s.mem, s.regs[SP]).Some?
    ensures ExecuteAll([AtTop(LW, d, s.pc), InsRRL(ADDI, SP, SP, UP)], s)
      == s.(regs := Popped(s.regs, d, ReadWord(s.mem, s.regs[SP]).value), pc := s.pc + 8)
  {
    hide Execute, ReadWord, AtTop, ExecuteAll, Popped, LowHalf, Wrap;
    SmallWords(s.pc + 4, s.pc + 8);
    var v := ReadWord(s.mem, s.regs[SP]).value;
    var m := s.(regs := s.regs[d := v], pc := s.pc + 4);
    ExecuteAtTop(s, d);
    ExecuteMoveSp(m, 4);
    ExecuteTwo(AtTop(LW, d, s.pc), InsRRL(ADDI, SP, SP, UP), s);
    MoveAfterLoad(s.regs, d, v);
  }

  /** `pushw r` then `popw d`, for any two registers: the word arrives, the stack pointer is back, and only
      the word below the stack top has changed. The same register gets its own value back, even `$sp`. */
  lemma {:induction false} PushPop(r: Reg, d: Reg, c: Cursor, env: Environment, s: State) returns (t: State)
    requires c.segment.TextSegment? && s.pc == c.text && c.text + 16 < BRANCH_RANGE && s.regs[SP] >= 4
    requires WriteWord(s.mem, s.regs[SP] - 4, PushedWord(s, r)).Some?
    ensures t == ExecuteAll(LineCode(Popw(d), c.(text := c.text + 8), env), ExecuteAll(LineCode(Pushw(r), c, env), s))
    ensures t.pc == c.text + 16 && Some(t.mem) == WriteWord(s.mem, s.regs[SP] - 4, PushedWord(s, r))
    ensures t.regs == if d == SP then s.regs[SP := Above(PushedWord(s, r))] else s.regs[d := PushedWord(s, r)]
    ensures r == d ==> t.regs == s.regs
  {
    hide LineCode, Execute, ReadWord, WriteWord, ExecuteAll;
    var v := PushedWord(s, r);
    PushStores(r, c, env, s);
    WriteThenRead(s.mem, s.regs[SP] - 4, v, s.regs[SP] - 4);
    var m := ExecuteAll(LineCode(Pushw(r), c, env), s);
    PopLoads(d, c.(text := c.text + 8), env, m);
    t := ExecuteAll(LineCode(Popw(d), c.(text := c.text + 8), env), m);
  }

  // ----- literals and labels -----

  /** `li` loads any 32-bit value into any register, `$zero` included, in one instruction or two. */
  lemma LiLoads(r: Reg, l: int, c: Cursor, env: Environment, s: State)
    requires c.segment.TextSegment? && s.regs[ZERO] == 0
    ensures var code := LineCode(Li(r, l), c, env);
      ExecuteAll(code, s) == s.(regs := s.regs[r := Wrap(l)], pc := Wrap(s.pc + 4 * |code|))
  {
    hide LineCode, Execute, ExecuteAll, Emissions, Next, Upper, Lower;
    CodeOfLi(r, l, c, env);
    var v := Wrap(l);
    if Upper(v) != 0 {
      LoadHalves(r, v, s);
    } else {
      LoadShort(r, v, s);
    }
  }

  /** `la` loads the label's location into any register. */
  lemma LaLoads(r: Reg, target: string, c: Cursor, env: Environment, s: State)
    requires c.segment.TextSegment? && target in env
    ensures var code := LineCode(La(r, target), c, env);
      ExecuteAll(code, s) == s.(regs := s.regs[r := Wrap(env[target])], pc := Wrap(s.pc + 4 * |code|))
  {
    hide LineCode, Execute, ExecuteAll, Emissions, Next, Upper, Lower;
    CodeOfLa(r, target, c, env);
    LoadHalves(r, Wrap(env[target]), s);
  }

  lemma ExecuteLui(s: State, r: Reg, imm: Half)
    ensures Execute(InsRL(LUI, r, imm), s) == s.(regs := s.regs[r := imm * 0x1_0000], pc := Wrap(s.pc + 4))
  {
  }

  lemma ExecuteOrImmediate(s: State, r: Reg, a: Reg, imm: Half)
    ensures Execute(InsRRL(ORI, r, a, imm), s)
      == s.(regs := s.regs[r := Bitwise(Or, s.regs[a], imm)], pc := Wrap(s.pc + 4))
  {
    hide Bitwise;
  }

  lemma LoadHalves(r: Reg, v: Word, s: State)
    ensures ExecuteAll([InsRL(LUI, r, Upper(v)), InsRRL(ORI, r, r, Lower(v))], s)
      == s.(regs := s.regs[r := v], pc := Wrap(s.pc + 8))
  {
    hide Execute, Bitwise, ExecuteAll, Wrap, Upper, Lower;
    var hi, lo := Upper(v), Lower(v);
    ExecuteTwo(InsRL(LUI, r, hi), InsRRL(ORI, r, r, lo), s);
    ExecuteLui(s, r, hi);
    var m := s.(regs := s.regs[r := hi as int * 0x1_0000], pc := Wrap(s.pc + 4));
    ExecuteOrImmediate(m, r, r, lo);
    OrHalves(hi, lo);
    HalvesOf(v);
    WrapTwice(s.pc);
    assert m.regs[r := v] == s.regs[r := v];
  }

  lemma HalvesOf(v: Word)
    ensures Upper(v) * 0x1_0000 + Lower(v) == v
  {
  }

  lemma WrapTwice(pc: Word)
    ensures Wrap(Wrap(pc + 4) + 4) == Wrap(pc + 8)
  {
  }

  lemma LoadShort(r: Reg, v: Word, s: State)
    requires Upper(v) == 0 && s.regs[ZERO] == 0
    ensures ExecuteAll([InsRRL(ORI, r, ZERO, Lower(v))], s) == s.(regs := s.regs[r := v], pc := Wrap(s.pc + 4))
  {
    hide Execute;
    ExecuteOrImmediate(s, r, ZERO, Lower(v));
    OrZero(Lower(v));
    var code := [InsRRL(ORI, r, ZERO, Lower(v))];
    assert code[1..] == [];
    assert ExecuteAll(code, s) == ExecuteAll([], Execute(code[0], s));
  }

  // ----- arithmetic -----

  lemma CodeOfProduct(line: Line, c: Cursor, env: Environment)
    requires c.segment.TextSegment? && (line.Mult3? || line.Div3?)
    ensures LineCode(line, c, env) == [InsRR(if line.Mult3? then MULT else DIV, line.a, line.b), InsR(MFLO, line.d)]
    ensures Emits(line) && Next(line, c) == c.(text := c.text + 8)
  {
    TwoEmissions(line, c, env);
  }

  /** The low word of the product, or the unsigned quotient. */
  function Computed(line: Line, x: Word, y: Word): Word
    requires line.Mult3? || (line.Div3? && y != 0)
  {
    if line.Mult3? then Wrap(x * y) else x / y
  }

  lemma ExecuteProduct(line: Line, s: State)
    requires line.Mult3? || (line.Div3? && s.regs[line.b] != 0)
    ensures var v := Computed(line, s.regs[line.a], s.regs[line.b]);
      var m := Execute(InsRR(if line.Mult3? then MULT else DIV, line.a, line.b), s);
      && m == s.(pc := Wrap(s.pc + 4), lo := v, hi := m.hi)
      && Execute(InsR(MFLO, line.d), m) == m.(regs := m.regs[line.d := v], pc := Wrap(m.pc + 4))
  {
  }

  /** The product's or quotient's low word goes from `lo` to the register. */
  lemma {:induction false} RunThroughLo(w: World, lines: seq<Line>, c: Cursor, s: State, i: Instr, d: Reg, v: Word)
    returns (t: State)
    requires lines != [] && Emits(lines[0]) && Linked(w, lines, c) && AtCursor(w, s, c)
    requires LineCode(lines[0], c, w.env) == [i, InsR(MFLO, d)] && Next(lines[0], c) == c.(text := c.text + 8)
    requires var m := Execute(i, s); m == s.(pc := Wrap(s.pc + 4), lo := v, hi := m.hi)
    requires var m := Execute(i, s); Execute(InsR(MFLO, d), m) == m.(regs := m.regs[d := v], pc := Wrap(m.pc + 4))
    ensures t == s.(regs := s.regs[d := v], pc := c.text + 8, lo := v, hi := t.hi)
    ensures Reaches(w, s, t) && Linked(w, lines[1..], c.(text := c.text + 8))
  {
    hide Emissions, Expand, Listing, LineCode, Next, Linked, Loaded, Decode, Reaches, ReadWord, WriteWord, Execute;
    t := RunLineTwo(w, lines, c, s, i, InsR(MFLO, d));
    WrapTwice(s.pc);
  }

  /** Three-register `mult` and `div`. */
  lemma {:induction false} RunProduct(w: World, lines: seq<Line>, c: Cursor, s: State) returns (t: State)
    requires lines != [] && (lines[0].Mult3? || (lines[0].Div3? && s.regs[lines[0].b] != 0))
    requires Linked(w, lines, c) && AtCursor(w, s, c)
    ensures var v := Computed(lines[0], s.regs[lines[0].a], s.regs[lines[0].b]);
      t == s.(regs := s.regs[lines[0].d := v], pc := c.text + 8, lo := v, hi := t.hi)
    ensures Reaches(w, s, t) && Linked(w, lines[1..], c.(text := c.text + 8))
  {
    hide Emissions, Expand, Listing, LineCode, Next, Linked, Loaded, Decode, Reaches, ReadWord, WriteWord, Execute;
    hide Computed, Emits;
    var line := lines[0];
    CodeOfProduct(line, c, w.env);
    ExecuteProduct(line, s);
    var v := Computed(line, s.regs[line.a], s.regs[line.b]);
    t := RunThroughLo(w, lines, c, s, InsRR(if line.Mult3? then MULT else DIV, line.a, line.b), line.d, v);
  }

  lemma CodeOfNot(d: Reg, a: Reg, c: Cursor, env: Environment)
    requires c.segment.TextSegment?
    ensures LineCode(Not(d, a), c, env) == [InsRRR(NOR, d, a, ZERO)] && Next(Not(d, a), c) == c.(text := c.text + 4)
  {
    OneEmission(Not(d, a), c, env);
  }

  /** `not`: every bit inverted. */
  lemma {:induction false} RunNot(w: World, lines: seq<Line>, c: Cursor, s: State, d: Reg, a: Reg) returns (t: State)
    requires lines != [] && lines[0] == Not(d, a) && Linked(w, lines, c) && AtCursor(w, s, c)
    ensures t == s.(regs := s.regs[d := 0xFFFF_FFFF - s.regs[a]], pc := c.text + 4)
    ensures Reaches(w, s, t) && Linked(w, lines[1..], c.(text := c.text + 4))
  {
    hide Emissions, Expand, Listing, LineCode, Next, Linked, Loaded, Decode, Reaches, ReadWord, WriteWord, Bits;
    CodeOfNot(d, a, c, w.env);
    OrZero(s.regs[a]);
    t := RunLine(w, lines, c, s, InsRRR(NOR, d, a, ZERO));
  }
}

/** Memory discipline of generated code (variables, operand stack, call stack) and the call protocol. */
module Frames {
  import opened Words
  import opened Isa
  import opened Machine
  import opened Assembly
  import opened Execution
  import Source

  const SPILL_WORDS := 64
  const STACK_FRAMES := 32

  /** Addresses of two variables are at least a word apart. */
  predicate Separated(st: Source.Store) {
    forall a, b | a in st && b in st && a != b :: a + 4 <= b || b + 4 <= a
  }

  /** Memory holds the value of every variable, inside the data segment. */
  predicate VariablesHeld(m: Memory, st: Source.Store) {
    forall a | a in st :: DATA_SEGMENT_OFFSET <= a && a + 4 <= STACK_OFFSET && ReadWord(m, a) == Some(st[a])
  }

  function SpillPointer(room: Source.Room): int {
    GLOBAL_OFFSET + 4 * (SPILL_WORDS - room.spills)
  }

  function StackPointer(room: Source.Room): int {
    STACK_OFFSET + 8 * room.frames
  }

  /** A state in front of generated code: variables in memory, both stacks used up to `room`. */
  predicate Ready(w: World, s: State, st: Source.Store, room: Source.Room, c: Cursor) {
    && AtCursor(w, s, c)
    && Separated(st) && VariablesHeld(s.mem, st)
    && room.spills <= SPILL_WORDS && s.regs[GP] == SpillPointer(room)
    && room.frames <= STACK_FRAMES && s.regs[SP] == StackPointer(room)
  }

  /** Everything below the operand-stack pointer and above the call-stack pointer is as it was. */
  predicate Kept(m: Memory, m': Memory, room: Source.Room) {
    && |m.global| == GLOBAL_SIZE == |m'.global| && |m.stack| == STACK_SIZE == |m'.stack|
    && room.spills <= SPILL_WORDS && room.frames <= STACK_FRAMES
    && m'.global[..4 * (SPILL_WORDS - room.spills)] == m.global[..4 * (SPILL_WORDS - room.spills)]
    && m'.stack[8 * room.frames..] == m.stack[8 * room.frames..]
  }

  /** A run of generated code that went through to its end. */
  ghost predicate Landed(w: World, s: State, t: State, st: Source.Store, room: Source.Room, c: Cursor) {
    && Reaches(w, s, t)
    && Ready(w, t, st, room, c)
    && Kept(s.mem, t.mem, room)
    && t.regs[FP] == s.regs[FP]
  }

  lemma LandedTrans(w: World, s: State, t: State, u: State, st: Source.Store, room: Source.Room, c: Cursor,
                    st': Source.Store, c': Cursor)
    requires Landed(w, s, t, st, room, c) && Landed(w, t, u, st', room, c')
    ensures Landed(w, s, u, st', room, c')
  {
    ReachesTrans(w, s, t, u);
  }

  /** A word of the call stack that the run had to keep. */
  lemma KeptStack(m: Memory, m': Memory, room: Source.Room, a: Word)
    requires Kept(m, m', room)
    requires StackPointer(room) <= a && a + 4 <= STACK_OFFSET + STACK_SIZE
    ensures ReadWord(m', a) == ReadWord(m, a) && ReadWord(m, a).Some?
  {
    var i := a - STACK_OFFSET;
    var k := 8 * room.frames;
    assert m.stack[i..i + 4] == m.stack[k..][i - k..i - k + 4];
    assert m'.stack[i..i + 4] == m'.stack[k..][i - k..i - k + 4];
  }

  /** A word of the operand stack that the run had to keep. */
  lemma KeptSpill(m: Memory, m': Memory, room: Source.Room, a: Word)
    requires Kept(m, m', room)
    requires GLOBAL_OFFSET <= a && a + 4 <= SpillPointer(room)
    ensures ReadWord(m', a) == ReadWord(m, a) && ReadWord(m, a).Some?
  {
    var i := a - GLOBAL_OFFSET;
    var k := 4 * (SPILL_WORDS - room.spills);
    assert m.global[i..i + 4] == m.global[..k][i..i + 4];
    assert m'.global[i..i + 4] == m'.global[..k][i..i + 4];
  }

  // ----- stores -----

  /** A store above the text leaves the program loaded. */
  lemma StoreKeepsText(code: seq<Instr>, m: Memory, a: Word, v: Word)
    requires Loaded(code, m) && a >= DATA_SEGMENT_OFFSET && WriteWord(m, a, v).Some?
    ensures Loaded(code, WriteWord(m, a, v).value)
  {
    hide Decode;
    var m' := WriteWord(m, a, v).value;
    WriteThenRead(m, a, v, a);
    forall i | 0 <= i < |code|
      ensures ReadWord(m', 4 * i).Some? && Decode(ReadWord(m', 4 * i).value) == Some(code[i])
    {
      WriteThenRead(m, a, v, 4 * i);
    }
  }

  /** A word of either stack can be written without touching the program or a variable. */
  lemma StoreScratch(code: seq<Instr>, m: Memory, st: Source.Store, a: Word, v: Word)
    requires Loaded(code, m) && VariablesHeld(m, st) && |m.stack| == STACK_SIZE && |m.global| == GLOBAL_SIZE
    requires STACK_OFFSET <= a
    requires a + 4 <= STACK_OFFSET + STACK_SIZE || (GLOBAL_OFFSET <= a && a + 4 <= GLOBAL_OFFSET + GLOBAL_SIZE)
    ensures WriteWord(m, a, v).Some?
    ensures var m' := WriteWord(m, a, v).value;
      && Loaded(code, m') && VariablesHeld(m', st) && ReadWord(m', a) == Some(v)
      && |m'.stack| == STACK_SIZE && |m'.global| == GLOBAL_SIZE
      && (a < GLOBAL_OFFSET ==>
            var i := a - STACK_OFFSET;
            m'.global == m.global && m'.stack[..i] == m.stack[..i] && m'.stack[i + 4..] == m.stack[i + 4..])
      && (a >= GLOBAL_OFFSET ==>
            var i := a - GLOBAL_OFFSET;
            m'.stack == m.stack && m'.global[..i] == m.global[..i] && m'.global[i + 4..] == m.global[i + 4..])
  {
    hide Decode;
    var m' := WriteWord(m, a, v).value;
    StoreKeepsText(code, m, a, v);
    WriteThenRead(m, a, v, a);
    forall b | b in st ensures ReadWord(m', b) == Some(st[b]) {
      WriteThenRead(m, a, v, b);
    }
  }

  lemma ScratchWritable(code: seq<Instr>, m: Memory, a: Word, v: Word)
    requires Loaded(code, m) && |m.stack| == STACK_SIZE && |m.global| == GLOBAL_SIZE
    requires STACK_OFFSET <= a && a + 4 <= STACK_OFFSET + STACK_SIZE
    ensures WriteWord(m, a, v).Some?
    ensures var m' := WriteWord(m, a, v).value;
      Loaded(code, m') && |m'.stack| == STACK_SIZE && |m'.global| == GLOBAL_SIZE
  {
    hide Loaded, WriteWord, ReadWord;
    StoreScratch(code, m, map[], a, v);
  }

  /** A store to one variable changes that variable only. */
  lemma StoreVariable(code: seq<Instr>, m: Memory, st: Source.Store, a: Word, v: Word)
    requires Loaded(code, m) && VariablesHeld(m, st) && Separated(st) && a in st
    ensures WriteWord(m, a, v).Some?
    ensures var m' := WriteWord(m, a, v).value;
      && Loaded(code, m') && VariablesHeld(m', st[a := v]) && Separated(st[a := v])
      && m'.stack == m.stack && m'.global == m.global
  {
    hide Decode;
    assert ReadWord(m, a).Some?;
    var m' := WriteWord(m, a, v).value;
    StoreKeepsText(code, m, a, v);
    WriteThenRead(m, a, v, a);
    forall b | b in st ensures ReadWord(m', b) == Some(st[a := v][b]) {
      WriteThenRead(m, a, v, b);
    }
  }

  // ----- frames -----

  lemma ListingCons(e: Emission, es: seq<Emission>, location: nat, env: Environment)
    ensures Listing([e] + es, location, env)
      == Instructions(e, location, env) + Listing(es, location + Size(e), env)
    ensures TotalSize([e] + es) == Size(e) + TotalSize(es)
  {
    assert ([e] + es)[1..] == es;
  }

  const DOWN := LowHalf(-INSTRUCTION_SIZE)
  const UP := LowHalf(INSTRUCTION_SIZE)

  /** A load or store through `$sp` at a location. */
  function AtTop(op: Opcode, r: Reg, location: nat): Instr {
    InsRRA(op, r, SP, Distance(0, location))
  }

  function EnterCode(l: nat): seq<Instr> {
    [InsRRL(ADDI, SP, SP, DOWN), AtTop(SW, RA, l + 4), InsRRL(ADDI, SP, SP, DOWN), AtTop(SW, FP, l + 12),
     InsRRR(OR, FP, SP, ZERO)]
  }

  function RetCode(l: nat): seq<Instr> {
    [InsRRR(OR, SP, FP, ZERO), AtTop(LW, FP, l + 4), InsRRL(ADDI, SP, SP, UP), AtTop(LW, RA, l + 12),
     InsRRL(ADDI, SP, SP, UP), InsR(JR, RA)]
  }

  lemma {:induction false} ListingAppend(a: seq<Emission>, b: seq<Emission>, location: nat, env: Environment)
    ensures Listing(a + b, location, env) == Listing(a, location, env) + Listing(b, location + TotalSize(a), env)
    ensures TotalSize(a + b) == TotalSize(a) + TotalSize(b)
  {
    hide Instructions, Size;
    if a == [] {
      assert a + b == b;
    } else {
      assert a + b == [a[0]] + (a[1..] + b) && a == [a[0]] + a[1..];
      ListingAppend(a[1..], b, location + Size(a[0]), env);
      ListingCons(a[0], a[1..] + b, location, env);
    }
  }

  lemma ListingThree(e: Emission, f: Emission, g: Emission, location: nat, env: Environment)
    requires Size(e) == 4 && Size(f) == 4 && Size(g) == 4
    ensures Listing([e, f, g], location, env)
      == Instructions(e, location, env) + Instructions(f, location + 4, env) + Instructions(g, location + 8, env)
    ensures TotalSize([e, f, g]) == 12
  {
    hide Instructions, Size;
    assert [e, f, g] == [e] + [f, g];
    ListingCons(e, [f, g], location, env);
    ListingTwo(f, g, location + 4, env);
    SizeOfTwo(f, g);
  }

  const ENTER := [
    PutRRL(ADDI, SP, SP, -INSTRUCTION_SIZE), PutAccess(SW, RA, STACK_TOP),
    PutRRL(ADDI, SP, SP, -INSTRUCTION_SIZE), PutAccess(SW, FP, STACK_TOP), PutRRL(OR, FP, SP, ZERO)]

  const RET := [
    PutRRL(OR, SP, FP, ZERO), PutAccess(LW, FP, STACK_TOP), PutRRL(ADDI, SP, SP, INSTRUCTION_SIZE),
    PutAccess(LW, RA, STACK_TOP), PutRRL(ADDI, SP, SP, INSTRUCTION_SIZE), PutR(JR, RA)]

  lemma FrameEmissions(c: Cursor)
    ensures Emissions(Enter, c) == ENTER && Next(Enter, c) == Grow(c, TotalSize(ENTER))
    ensures Emissions(Ret, c) == RET && Next(Ret, c) == Grow(c, TotalSize(RET))
  {
    hide TotalSize;
  }

  /** The pushes and pops of a frame, at their places. */
  lemma SaveCode(r: Reg, l: nat, env: Environment)
    ensures Instructions(PutRRL(ADDI, SP, SP, -INSTRUCTION_SIZE), l, env) == [InsRRL(ADDI, SP, SP, DOWN)]
    ensures Instructions(PutRRL(ADDI, SP, SP, INSTRUCTION_SIZE), l, env) == [InsRRL(ADDI, SP, SP, UP)]
    ensures Instructions(PutAccess(SW, r, STACK_TOP), l, env) == [AtTop(SW, r, l)]
    ensures Instructions(PutAccess(LW, r, STACK_TOP), l, env) == [AtTop(LW, r, l)]
    ensures Instructions(PutRRL(OR, FP, SP, ZERO), l, env) == [InsRRR(OR, FP, SP, ZERO)]
    ensures Instructions(PutRRL(OR, SP, FP, ZERO), l, env) == [InsRRR(OR, SP, FP, ZERO)]
    ensures Instructions(PutR(JR, RA), l, env) == [InsR(JR, RA)]
  {
  }

  lemma CodeOfEnter(c: Cursor, env: Environment)
    requires c.segment.TextSegment?
    ensures LineCode(Enter, c, env) == EnterCode(c.text) && Next(Enter, c) == c.(text := c.text + 20)
  {
    var es := ENTER;
    hide Listing, TotalSize, Emissions, Next, Expand, Instructions, AtTop, FormOf;
    FrameEmissions(c);
    var l := c.text;
    var a, b := es[..3], es[3..];
    assert es == a + b && a == [es[0], es[1], es[2]] && b == [es[3], es[4]];
    ListingAppend(a, b, l, env);
    ListingThree(es[0], es[1], es[2], l, env);
    ListingTwo(es[3], es[4], l + 12, env);
    SizeOfTwo(es[3], es[4]);
    SaveCode(RA, l, env);
    SaveCode(RA, l + 4, env);
    SaveCode(RA, l + 8, env);
    SaveCode(FP, l + 12, env);
    SaveCode(FP, l + 16, env);
  }

  lemma CodeOfRet(c: Cursor, env: Environment)
    requires c.segment.TextSegment?
    ensures LineCode(Ret, c, env) == RetCode(c.text) && Next(Ret, c) == c.(text := c.text + 24)
  {
    var es := RET;
    hide Listing, TotalSize, Emissions, Next, Expand, Instructions, AtTop, FormOf;
    FrameEmissions(c);
    var l := c.text;
    var a, b := es[..3], es[3..];
    assert es == a + b && a == [es[0], es[1], es[2]] && b == [es[3], es[4], es[5]];
    ListingAppend(a, b, l, env);
    ListingThree(es[0], es[1], es[2], l, env);
    ListingThree(es[3], es[4], es[5], l + 12, env);
    SaveCode(FP, l, env);
    SaveCode(FP, l + 4, env);
    SaveCode(FP, l + 8, env);
    SaveCode(RA, l + 12, env);
    SaveCode(RA, l + 16, env);
    SaveCode(RA, l + 20, env);
  }

  // Single steps inside a frame instruction sequence; `rest` is the code from the program counter on.

  lemma {:induction false} StepMoveSp(w: World, l: nat, rest: seq<Instr>, s: State, k: int) returns (t: State)
    requires CodeAt(w.code, l, rest) && Sane(w, s) && s.pc == l && rest != []
    requires k == 4 || k == -4
    requires rest[0] == InsRRL(ADDI, SP, SP, LowHalf(k))
    ensures t == s.(regs := s.regs[SP := Wrap(s.regs[SP] + k)], pc := l + 4) && Reaches(w, s, t)
    ensures CodeAt(w.code, l + 4, rest[1..]) && l + 4 < BRANCH_RANGE && Sane(w, t)
  {
    hide Loaded, Decode, Reaches, ReadWord, WriteWord, CodeAt;
    t := StepCode(w, l, rest, s);
    assert SignExtend(LowHalf(k)) == k;
  }

  lemma {:induction false} StepCopy(w: World, l: nat, rest: seq<Instr>, s: State, d: Reg, a: Reg) returns (t: State)
    requires CodeAt(w.code, l, rest) && Sane(w, s) && s.pc == l && rest != [] && d != ZERO
    requires rest[0] == InsRRR(OR, d, a, ZERO)
    ensures t == s.(regs := s.regs[d := s.regs[a]], pc := l + 4) && Reaches(w, s, t)
    ensures CodeAt(w.code, l + 4, rest[1..]) && l + 4 < BRANCH_RANGE && Sane(w, t)
  {
    hide Loaded, Decode, Reaches, ReadWord, WriteWord, CodeAt;
    t := StepCode(w, l, rest, s);
    OrZero(s.regs[a]);
  }

  lemma {:induction false} StepSaveTop(w: World, l: nat, rest: seq<Instr>, s: State, r: Reg) returns (t: State)
    requires CodeAt(w.code, l, rest) && Sane(w, s) && s.pc == l && rest != []
    requires rest[0] == AtTop(SW, r, l)
    requires STACK_OFFSET <= s.regs[SP] && s.regs[SP] + 4 <= STACK_OFFSET + STACK_SIZE
    ensures WriteWord(s.mem, s.regs[SP], s.regs[r]).Some?
    ensures t == s.(mem := WriteWord(s.mem, s.regs[SP], s.regs[r]).value, pc := l + 4) && Reaches(w, s, t)
    ensures CodeAt(w.code, l + 4, rest[1..]) && l + 4 < BRANCH_RANGE && Sane(w, t)
  {
    hide Loaded, Decode, Reaches, ReadWord, WriteWord, CodeAt;
    t := StepCode(w, l, rest, s);
    NearAddress(0, l, s.regs[SP]);
    ScratchWritable(w.code, s.mem, s.regs[SP], s.regs[r]);
  }

  lemma {:induction false} StepLoadTop(w: World, l: nat, rest: seq<Instr>, s: State, r: Reg) returns (t: State)
    requires CodeAt(w.code, l, rest) && Sane(w, s) && s.pc == l && rest != [] && r != ZERO
    requires rest[0] == AtTop(LW, r, l) && ReadWord(s.mem, s.regs[SP]).Some?
    ensures t == s.(regs := s.regs[r := ReadWord(s.mem, s.regs[SP]).value], pc := l + 4) && Reaches(w, s, t)
    ensures CodeAt(w.code, l + 4, rest[1..]) && l + 4 < BRANCH_RANGE && Sane(w, t)
  {
    hide Loaded, Decode, Reaches, ReadWord, WriteWord, CodeAt;
    t := StepCode(w, l, rest, s);
    NearAddress(0, l, s.regs[SP]);
  }

  lemma {:induction false} StepJr(w: World, l: nat, rest: seq<Instr>, s: State) returns (t: State)
    requires CodeAt(w.code, l, rest) && Sane(w, s) && s.pc == l && rest != [] && rest[0] == InsR(JR, RA)
    ensures t == s.(pc := s.regs[RA]) && Reaches(w, s, t) && l + 4 < BRANCH_RANGE && Sane(w, t)
  {
    hide Loaded, Decode, Reaches, ReadWord, WriteWord, CodeAt;
    t := StepCode(w, l, rest, s);
  }

  /** `enter` pushes the return address and the caller's frame pointer and starts a frame there. */
  lemma {:induction false} RunEnter(w: World, lines: seq<Line>, c: Cursor, s: State) returns (t: State)
    requires lines != [] && lines[0] == Enter && Linked(w, lines, c) && AtCursor(w, s, c)
    requires STACK_OFFSET + 8 <= s.regs[SP] <= STACK_OFFSET + STACK_SIZE
    ensures t == s.(regs := s.regs[SP := s.regs[SP] - 8][FP := s.regs[SP] - 8], pc := c.text + 20, mem := t.mem)
    ensures WriteWord(s.mem, s.regs[SP] - 4, s.regs[RA]).Some?
    ensures var m := WriteWord(s.mem, s.regs[SP] - 4, s.regs[RA]).value;
      WriteWord(m, s.regs[SP] - 8, s.regs[FP]) == Some(t.mem)
    ensures Reaches(w, s, t) && Linked(w, lines[1..], c.(text := c.text + 20)) && c.text + 20 < BRANCH_RANGE
    ensures Sane(w, t)
  {
    hide Loaded, Decode, Reaches, ReadWord, WriteWord, CodeAt, LineCode, Emissions, Next, EnterCode;
    CodeOfEnter(c, w.env);
    t := RunEnterCode(w, c.text, s);
  }

  lemma {:induction false} RunEnterCode(w: World, l: nat, s: State) returns (t: State)
    requires CodeAt(w.code, l, EnterCode(l)) && Sane(w, s) && s.pc == l
    requires STACK_OFFSET + 8 <= s.regs[SP] <= STACK_OFFSET + STACK_SIZE
    ensures t == s.(regs := s.regs[SP := s.regs[SP] - 8][FP := s.regs[SP] - 8], pc := l + 20, mem := t.mem)
    ensures WriteWord(s.mem, s.regs[SP] - 4, s.regs[RA]).Some?
    ensures var m := WriteWord(s.mem, s.regs[SP] - 4, s.regs[RA]).value;
      WriteWord(m, s.regs[SP] - 8, s.regs[FP]) == Some(t.mem)
    ensures Reaches(w, s, t) && l + 20 < BRANCH_RANGE && Sane(w, t)
  {
    hide Loaded, Decode, Reaches, ReadWord, WriteWord, CodeAt, Execute;
    var code := EnterCode(l);
    var s1 := StepMoveSp(w, l, code, s, -4);
    var s2 := StepSaveTop(w, l + 4, code[1..], s1, RA);
    var s3 := StepMoveSp(w, l + 8, code[1..][1..], s2, -4);
    var s4 := StepSaveTop(w, l + 12, code[1..][1..][1..], s3, FP);
    t := StepCopy(w, l + 16, code[1..][1..][1..][1..], s4, FP, SP);
    ReachesTrans(w, s, s1, s2);
    ReachesTrans(w, s, s2, s3);
    ReachesTrans(w, s, s3, s4);
    ReachesTrans(w, s, s4, t);
  }

  /** `ret` pops the frame at `$fp`, wherever `$sp` is by then, and jumps to the saved address. */
  lemma {:induction false} RunRet(w: World, lines: seq<Line>, c: Cursor, s: State) returns (t: State)
    requires lines != [] && lines[0] == Ret && Linked(w, lines, c) && AtCursor(w, s, c)
    requires s.regs[FP] <= STACK_OFFSET + STACK_SIZE
    requires ReadWord(s.mem, s.regs[FP]).Some? && ReadWord(s.mem, s.regs[FP] + 4).Some?
    ensures var ra := ReadWord(s.mem, s.regs[FP] + 4).value;
      t == s.(pc := ra, regs := s.regs[SP := s.regs[FP] + 8][FP := ReadWord(s.mem, s.regs[FP]).value][RA := ra])
    ensures Reaches(w, s, t) && Sane(w, t)
  {
    hide Loaded, Decode, Reaches, ReadWord, WriteWord, CodeAt, LineCode, Emissions, Next, RetCode;
    CodeOfRet(c, w.env);
    t := RunRetCode(w, c.text, s);
  }

  lemma {:induction false} RunRetCode(w: World, l: nat, s: State) returns (t: State)
    requires CodeAt(w.code, l, RetCode(l)) && Sane(w, s) && s.pc == l
    requires s.regs[FP] <= STACK_OFFSET + STACK_SIZE
    requires ReadWord(s.mem, s.regs[FP]).Some? && ReadWord(s.mem, s.regs[FP] + 4).Some?
    ensures var ra := ReadWord(s.mem, s.regs[FP] + 4).value;
      t == s.(pc := ra, regs := s.regs[SP := s.regs[FP] + 8][FP := ReadWord(s.mem, s.regs[FP]).value][RA := ra])
    ensures Reaches(w, s, t) && Sane(w, t)
  {
    hide Loaded, Decode, Reaches, ReadWord, WriteWord, CodeAt, Execute;
    var code := RetCode(l);
    var s1 := StepCopy(w, l, code, s, SP, FP);
    var s2 := StepLoadTop(w, l + 4, code[1..], s1, FP);
    var s3 := StepMoveSp(w, l + 8, code[1..][1..], s2, 4);
    var s4 := StepLoadTop(w, l + 12, code[1..][1..][1..], s3, RA);
    var s5 := StepMoveSp(w, l + 16, code[1..][1..][1..][1..], s4, 4);
    t := StepJr(w, l + 20, code[1..][1..][1..][1..][1..], s5);
    ReachesTrans(w, s, s1, s2);
    ReachesTrans(w, s, s2, s3);
    ReachesTrans(w, s, s3, s4);
    ReachesTrans(w, s, s4, s5);
    ReachesTrans(w, s, s5, t);
  }

  lemma {:induction false} RunCall(w: World, lines: seq<Line>, c: Cursor, s: State, target: string) returns (t: State)
    requires lines != [] && lines[0] == Call(target) && Linked(w, lines, c) && AtCursor(w, s, c)
    requires target in w.env && w.env[target] < BRANCH_RANGE
    ensures t == s.(pc := w.env[target], regs := s.regs[RA := c.text + 4])
    ensures Reaches(w, s, t) && Linked(w, lines[1..], c.(text := c.text + 4)) && c.text + 4 < BRANCH_RANGE
  {
    hide Emissions, Expand, Listing, LineCode, Next, Linked, Loaded, Decode, Reaches, ReadWord, WriteWord;
    CodeOfCall(target, c, w.env);
    t := RunLine(w, lines, c, s, InsA(JAL, w.env[target] % 0x400_0000));
  }
}

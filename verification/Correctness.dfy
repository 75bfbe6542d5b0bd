/** Compiler correctness: running the generated code does what the source run does. */
module Correctness {
  import opened Words
  import opened Isa
  import opened Names
  import opened Machine
  import opened Assembly
  import opened Execution
  import opened Frames
  import opened Fragments
  import opened CodeGeneration
  import Source

  /** The label table places every variable, and every callable function is linked at its home. */
  ghost predicate WorldLinked(w: World) {
    && (forall x | x in w.program.variables ::
          x in w.env && w.env[x] == w.program.variables[x])
    && (forall f | f in w.program.functions ::
          && f != Source.ENTRY && f in w.home && Inside(w, w.home[f].cursor)
          && Linked(w, GenFunction(f, w.program.functions[f], w.home[f].uid).lines, w.home[f].cursor))
  }

  lemma EndOne(line: Line, c: Cursor)
    ensures End([line], c) == Next(line, c)
  {
    assert [line][1..] == [];
  }

  // ----- blocks -----

  /** Changing scratch registers leaves a state ready. */
  lemma LandedRegister(w: World, s: State, t: State, st: Source.Store, room: Source.Room, c: Cursor, c': Cursor)
    requires Ready(w, s, st, room, c) && Reaches(w, s, t)
    requires AtCursor(w, t, c') && t.mem == s.mem
    requires t.regs[GP] == s.regs[GP] && t.regs[SP] == s.regs[SP] && t.regs[FP] == s.regs[FP]
    ensures Landed(w, s, t, st, room, c')
  {
    hide Loaded, Reaches, ReadWord;
  }

  lemma {:induction false} RunLoadT0(w: World, c: Cursor, st: Source.Store, room: Source.Room, s: State)
    returns (t: State)
    requires Linked(w, LOAD, c) && Ready(w, s, st, room, c) && s.regs[T0] in st
    ensures Landed(w, s, t, st, room, End(LOAD, c)) && t.regs[T0] == st[s.regs[T0]]
  {
    hide Loaded, Reaches, ReadWord, Linked, Emissions;
    t := RunLoad(w, LOAD, c, s, T0, T0);
    NextOfSingle(LOAD[0], c);
    EndOne(LOAD[0], c);
    LandedRegister(w, s, t, st, room, c, End(LOAD, c));
  }

  lemma {:induction false} RunLaT0(w: World, x: string, c: Cursor, st: Source.Store, room: Source.Room, s: State)
    returns (t: State)
    requires Linked(w, [La(T0, x)], c) && Ready(w, s, st, room, c)
    requires WorldLinked(w) && x in w.program.variables
    ensures Landed(w, s, t, st, room, End([La(T0, x)], c)) && t.regs[T0] == w.program.variables[x]
  {
    hide Loaded, Reaches, ReadWord, Linked, Emissions;
    t := RunLa(w, [La(T0, x)], c, s, T0, x);
    CodeOfLa(T0, x, c, w.env);
    EndOne(La(T0, x), c);
    LandedRegister(w, s, t, st, room, c, End([La(T0, x)], c));
  }

  /** The last instruction of an assignment. */
  lemma {:induction false} RunStoreThrough(w: World, c: Cursor, st: Source.Store, room: Source.Room, s: State)
    returns (t: State)
    requires Linked(w, STORE, c) && Ready(w, s, st, room, c) && s.regs[T1] in st
    ensures Landed(w, s, t, st[s.regs[T1] := s.regs[T0]], room, End(STORE, c)) && t.regs[T0] == s.regs[T0]
  {
    hide Loaded, Reaches, ReadWord, WriteWord, Linked, Emissions, Next;
    StoreVariable(w.code, s.mem, st, s.regs[T1], s.regs[T0]);
    t := RunStore(w, STORE, c, s, T0, T1);
    NextOfSingle(STORE[0], c);
    EndOne(STORE[0], c);
  }

  /** After a push one spill slot is used and holds what `$t0` held. */
  lemma {:induction false} RunPush(w: World, c: Cursor, st: Source.Store, room: Source.Room, s: State)
    returns (t: State)
    requires Linked(w, PUSH, c) && Ready(w, s, st, room, c) && room.spills > 0
    ensures var inner := room.(spills := room.spills - 1);
      && Reaches(w, s, t) && Ready(w, t, st, inner, End(PUSH, c))
      && Kept(s.mem, t.mem, room) && t.regs[FP] == s.regs[FP]
      && ReadWord(t.mem, s.regs[GP]) == Some(s.regs[T0])
  {
    hide Loaded, Reaches, ReadWord, WriteWord, Linked, Emissions;
    var a := s.regs[GP];
    StoreScratch(w.code, s.mem, st, a, s.regs[T0]);
    var m := RunStore(w, PUSH, c, s, T0, GP);
    NextOfSingle(PUSH[0], c);
    var c1 := c.(text := c.text + 4);
    t := RunAddi(w, PUSH[1..], c1, m, GP, 4);
    NextOfSingle(PUSH[1], c1);
    EndOne(PUSH[1], c1);
    assert PUSH[1..] == [PUSH[1]];
    ReachesTrans(w, s, m, t);
  }

  /** A pop gives the slot back and delivers its word in `$t1`. */
  lemma {:induction false} RunPop(w: World, lines: seq<Line>, c: Cursor, st: Source.Store, room: Source.Room, s: State)
    returns (t: State, c': Cursor)
    requires Linked(w, POP + lines, c) && room.spills > 0 && room.spills <= SPILL_WORDS
    requires Ready(w, s, st, room.(spills := room.spills - 1), c)
    requires ReadWord(s.mem, SpillPointer(room)).Some?
    ensures Reaches(w, s, t) && Ready(w, t, st, room, c') && t.mem == s.mem && t.regs[FP] == s.regs[FP]
    ensures t.regs[T1] == ReadWord(s.mem, SpillPointer(room)).value && t.regs[T0] == s.regs[T0]
    ensures Linked(w, lines, c') && End(POP + lines, c) == End(lines, c') && c' == c.(text := c.text + 8)
  {
    hide Loaded, Reaches, ReadWord, WriteWord, Linked, Emissions, Next;
    var all := POP + lines;
    assert all[1..] == [POP[1]] + lines && all[1..][1..] == lines;
    var m := RunAddi(w, all, c, s, GP, -4);
    NextOfSingle(POP[0], c);
    var c1 := c.(text := c.text + 4);
    t := RunLoad(w, all[1..], c1, m, T1, GP);
    NextOfSingle(POP[1], c1);
    c' := c1.(text := c1.text + 4);
    ReachesTrans(w, s, m, t);
  }

  lemma BitsOfFlags(x: bool, y: bool)
    ensures Bitwise(And, Flag(x), Flag(y)) == Flag(x && y)
    ensures Bitwise(Or, Flag(x), Flag(y)) == Flag(x || y)
  {
    assert Bits(And, Flag(x) / 2, Flag(y) / 2) == 0 == Bits(Or, Flag(x) / 2, Flag(y) / 2);
  }

  /** The operator's instructions compute it from `$t1` and `$t0`. */
  lemma {:induction false} RunOperate(w: World, op: Source.BinaryOperator, c: Cursor, st: Source.Store,
                                      room: Source.Room, s: State)
    returns (t: State)
    requires Linked(w, Operate(op), c) && Ready(w, s, st, room, c)
    requires Source.Apply(op, s.regs[T1], s.regs[T0]).Some?
    ensures Landed(w, s, t, st, room, End(Operate(op), c))
    ensures t.regs[T0] == Source.Apply(op, s.regs[T1], s.regs[T0]).value
  {
    hide Loaded, Reaches, ReadWord, Linked, Emissions, Next, Execute;
    var lines := Operate(op);
    match op {
      case Add | Equal =>
        t := RunOp3(w, lines, c, s);
        NextOfSingle(lines[0], c);
        EndOne(lines[0], c);
      case Modulus =>
        t := RunRem(w, lines, c, s, T0, T1, T0);
        CodeOfRem(T0, T1, T0, c, w.env);
        EndOne(lines[0], c);
      case LogicalAnd =>
        t := RunLogicalAnd(w, c, s);
      case LessThanOrEqual =>
        t := RunLessThanOrEqual(w, c, s);
    }
    LandedRegister(w, s, t, st, room, c, End(lines, c));
  }

  lemma {:induction false} RunLogicalAnd(w: World, c: Cursor, s: State) returns (t: State)
    requires Linked(w, Operate(Source.LogicalAnd), c) && AtCursor(w, s, c)
    ensures Reaches(w, s, t) && AtCursor(w, t, End(Operate(Source.LogicalAnd), c))
    ensures t.mem == s.mem && t.regs[GP] == s.regs[GP] && t.regs[SP] == s.regs[SP] && t.regs[FP] == s.regs[FP]
    ensures t.regs[T0] == Flag(s.regs[T1] != 0 && s.regs[T0] != 0)
  {
    hide Loaded, Reaches, ReadWord, Linked, Emissions, Next, Execute, Bitwise;
    var lines := Operate(Source.LogicalAnd);
    var m1 := RunOp3(w, lines, c, s);
    var c1 := c.(text := c.text + 4);
    var m2 := RunOp3(w, lines[1..], c1, m1);
    var c2 := c1.(text := c1.text + 4);
    t := RunOp3(w, lines[1..][1..], c2, m2);
    EndOfThree(lines, c, w.env);
    ReachesTrans(w, s, m1, m2);
    ReachesTrans(w, s, m2, t);
    BitsOfFlags(s.regs[T1] != 0, s.regs[T0] != 0);
  }

  lemma {:induction false} RunLessThanOrEqual(w: World, c: Cursor, s: State) returns (t: State)
    requires Linked(w, Operate(Source.LessThanOrEqual), c) && AtCursor(w, s, c)
    ensures Reaches(w, s, t) && AtCursor(w, t, End(Operate(Source.LessThanOrEqual), c))
    ensures t.mem == s.mem && t.regs[GP] == s.regs[GP] && t.regs[SP] == s.regs[SP] && t.regs[FP] == s.regs[FP]
    ensures t.regs[T0] == Flag(s.regs[T1] <= s.regs[T0])
  {
    hide Loaded, Reaches, ReadWord, Linked, Emissions, Next, Execute, Bitwise, Alu;
    var lines := Operate(Source.LessThanOrEqual);
    AluFlags(s.regs[T1], s.regs[T0]);
    AluFlags(s.regs[T0], s.regs[T1]);
    AluOr(Flag(s.regs[T0] == s.regs[T1]), Flag(s.regs[T1] < s.regs[T0]));
    var m1 := RunOp3(w, lines, c, s);
    var c1 := c.(text := c.text + 4);
    var m2 := RunOp3(w, lines[1..], c1, m1);
    var c2 := c1.(text := c1.text + 4);
    t := RunOp3(w, lines[1..][1..], c2, m2);
    EndOfThree(lines, c, w.env);
    ReachesTrans(w, s, m1, m2);
    ReachesTrans(w, s, m2, t);
    BitsOfFlags(s.regs[T0] == s.regs[T1], s.regs[T1] < s.regs[T0]);
  }

  lemma AluFlags(x: Word, y: Word)
    ensures Alu(SLT, x, y) == Some(Flag(x < y)) && Alu(SEQ, x, y) == Some(Flag(x == y))
  {
  }

  lemma AluOr(x: Word, y: Word)
    ensures Alu(OR, x, y) == Some(Bitwise(Or, x, y))
  {
    hide Bitwise;
  }

  lemma EndOfThree(lines: seq<Line>, c: Cursor, env: Environment)
    requires c.segment.TextSegment? && |lines| == 3 && forall i | 0 <= i < 3 :: lines[i].Op3?
    ensures End(lines, c) == c.(text := c.text + 12)
  {
    hide Emissions, Next, LineCode;
    var c1 := c.(text := c.text + 4);
    var c2 := c1.(text := c1.text + 4);
    NextOfSingle(lines[0], c);
    NextOfSingle(lines[1], c1);
    NextOfSingle(lines[2], c2);
    assert lines[1..][1..] == [lines[2]];
    EndOne(lines[2], c2);
    assert End(lines, c) == End(lines[1..], c1) == End(lines[1..][1..], c2);
  }

  /** What an inner part of the run kept, the whole kept. */
  lemma KeptWeaken(m: Memory, m': Memory, inner: Source.Room, room: Source.Room)
    requires inner.spills <= room.spills <= SPILL_WORDS && inner.frames <= room.frames <= STACK_FRAMES
    requires Kept(m, m', inner)
    ensures Kept(m, m', room)
  {
    var i, k := 4 * (SPILL_WORDS - inner.spills), 4 * (SPILL_WORDS - room.spills);
    assert m.global[..k] == m.global[..i][..k] && m'.global[..k] == m'.global[..i][..k];
    var j, l := 8 * inner.frames, 8 * room.frames;
    assert m.stack[l..] == m.stack[j..][l - j..] && m'.stack[l..] == m'.stack[j..][l - j..];
  }

  lemma KeptTrans(a: Memory, b: Memory, c: Memory, room: Source.Room)
    requires Kept(a, b, room) && Kept(b, c, room)
    ensures Kept(a, c, room)
  {
  }

  /** Operand stack discipline: push, inner run, pop, last instructions. */
  lemma AroundInner(w: World, s: State, m1: State, m2: State, m3: State, m4: State, t: State,
                    st1: Source.Store, st2: Source.Store, st3: Source.Store, room: Source.Room,
                    c1: Cursor, c3: Cursor, c5: Cursor)
    requires room.spills > 0 && Landed(w, s, m1, st1, room, c1)
    requires Reaches(w, m1, m2) && Sane(w, m2) && Kept(m1.mem, m2.mem, room) && m2.regs[FP] == m1.regs[FP]
    requires Landed(w, m2, m3, st2, room.(spills := room.spills - 1), c3)
    requires Reaches(w, m3, m4) && m4.mem == m3.mem && m4.regs[FP] == m3.regs[FP] && Sane(w, m4)
    requires Reaches(w, m4, t) && Ready(w, t, st3, room, c5) && Kept(m4.mem, t.mem, room) && t.regs[FP] == m4.regs[FP]
    ensures Landed(w, s, t, st3, room, c5)
  {
    hide Loaded, Reaches, Kept, VariablesHeld, Separated;
    ReachesTrans(w, s, m1, m2);
    ReachesTrans(w, s, m2, m3);
    ReachesTrans(w, s, m3, m4);
    ReachesTrans(w, s, m4, t);
    KeptWeaken(m2.mem, m3.mem, room.(spills := room.spills - 1), room);
    KeptTrans(s.mem, m1.mem, m2.mem, room);
    KeptTrans(s.mem, m2.mem, m3.mem, room);
    KeptTrans(s.mem, m3.mem, t.mem, room);
  }

  /** The places of `left; push; right; pop; last`. */
  lemma {:induction false} CutOperator(w: World, left: seq<Line>, right: seq<Line>, last: seq<Line>, c: Cursor)
    returns (c1: Cursor, c2: Cursor, c3: Cursor)
    requires Linked(w, left + (PUSH + (right + (POP + last))), c) && Inside(w, c)
    requires Fragment(left) && Fragment(right)
    ensures Inside(w, c1) && Inside(w, c2) && Inside(w, c3)
    ensures Linked(w, left, c) && c1 == End(left, c)
    ensures Linked(w, PUSH, c1) && c2 == End(PUSH, c1)
    ensures Linked(w, right, c2) && c3 == End(right, c2)
    ensures Linked(w, POP + last, c3) && End(left + (PUSH + (right + (POP + last))), c) == End(POP + last, c3)
  {
    hide Plain, Linked, Fragment, End;
    PlainStack();
    FragmentPlain(PUSH);
    c1 := Cut(w, left, PUSH + (right + (POP + last)), c);
    c2 := Cut(w, PUSH, right + (POP + last), c1);
    c3 := Cut(w, right, POP + last, c2);
  }

  // ----- addresses -----

  /** Code generated with `lval` set leaves the address of an assignable expression in `$t0`. */
  lemma {:induction false} RunAddress(w: World, e: Source.Expr, c: Cursor, st: Source.Store, room: Source.Room,
                                      s: State)
    returns (t: State)
    requires WorldLinked(w) && Inside(w, c) && Linked(w, GenExpr(e, true).lines, c) && Ready(w, s, st, room, c)
    requires Source.Locate(w.program, e, st).Some?
    ensures Landed(w, s, t, st, room, End(GenExpr(e, true).lines, c))
    ensures t.regs[T0] == Source.Locate(w.program, e, st).value
  {
    hide Loaded, Reaches, ReadWord, Linked, Emissions, Next, Fragment, Declare;
    match e
    case Identifier(x) =>
      t := RunLaT0(w, x, c, st, room, s);
    case Declaration(x, kind) =>
      FragmentDeclare(x, kind);
      var c1 := Cut(w, Declare(x, kind), [La(T0, x)], c);
      EndOfDeclare(x, kind, c);
      t := RunLaT0(w, x, c1, st, room, s);
    case Indirection(r) =>
      FragmentExpr(r, true);
      var c1 := Cut(w, GenExpr(r, true).lines, LOAD, c);
      var m := RunAddress(w, r, c, st, room, s);
      t := RunLoadT0(w, c1, st, room, m);
      LandedTrans(w, s, m, t, st, room, c1, st, End(LOAD, c1));
  }

  // ----- outcomes -----

  /** A `return` in a function body: back in the caller, whose frame and return address were on top
      of the call stack, with the value in `$t0`. */
  ghost predicate ReturnedTo(w: World, s: State, t: State, v: Word, st: Source.Store, room: Source.Room) {
    && room.frames < STACK_FRAMES
    && Reaches(w, s, t) && Sane(w, t)
    && Separated(st) && VariablesHeld(t.mem, st)
    && Kept(s.mem, t.mem, room)
    && t.regs[T0] == v
    && t.regs[GP] == s.regs[GP]
    && t.regs[SP] == StackPointer(room) + 8
    && ReadWord(s.mem, StackPointer(room)) == Some(t.regs[FP])
    && ReadWord(s.mem, StackPointer(room) + 4) == Some(t.pc)
  }

  /** A `return` in the entry function: the machine has stopped with the value. */
  ghost predicate Exited(w: World, s: State, t: State, v: Word, st: Source.Store) {
    && Reaches(w, s, t) && t.shouldExit && !t.fault && t.exitCode == Signed(v) && t.regs[ZERO] == 0
    && VariablesHeld(t.mem, st)
  }

  /** What the machine has done when the source run had a given outcome. */
  ghost predicate Finished(w: World, s: State, t: State, o: Source.Outcome, room: Source.Room, c: Cursor, entry: bool) {
    match o
    case Normal(st) => Landed(w, s, t, st, room, c)
    case Returned(v, st) => if entry then Exited(w, s, t, v, st) else ReturnedTo(w, s, t, v, st, room)
    case Undefined => true
  }

  lemma FinishedAfter(w: World, s: State, m: State, st: Source.Store, c: Cursor, t: State, o: Source.Outcome,
                      room: Source.Room, c': Cursor, entry: bool)
    requires Sane(w, s) && room.spills <= SPILL_WORDS && room.frames <= STACK_FRAMES
    requires !entry ==> room.frames < STACK_FRAMES
    requires s.regs[GP] == SpillPointer(room)
    requires Landed(w, s, m, st, room, c) && Finished(w, m, t, o, room, c', entry)
    ensures Finished(w, s, t, o, room, c', entry)
  {
    hide Loaded, ReadWord, Reaches;
    if !o.Undefined? {
      ReachesTrans(w, s, m, t);
    }
    if !entry {
      KeptStack(s.mem, m.mem, room, StackPointer(room));
      KeptStack(s.mem, m.mem, room, StackPointer(room) + 4);
    }
  }

  lemma {:induction false} RunExit(w: World, lines: seq<Line>, c: Cursor, s: State) returns (t: State)
    requires lines != [] && lines[0] == Sys && Linked(w, lines, c) && AtCursor(w, s, c) && s.regs[V0] == EXIT
    ensures t == s.(pc := c.text + 4, shouldExit := true, exitCode := Signed(s.regs[A0])) && Reaches(w, s, t)
  {
    hide Emissions, Expand, Listing, LineCode, Next, Linked, Loaded, Decode, Reaches, ReadWord, WriteWord;
    CodeOfSys(c, w.env);
    t := RunLine(w, lines, c, s, InsO(SYS));
  }

  lemma {:induction false} RunLeaveEntry(w: World, c: Cursor, st: Source.Store, room: Source.Room, s: State)
    returns (t: State)
    requires Linked(w, Leave(true), c) && Ready(w, s, st, room, c)
    ensures Exited(w, s, t, s.regs[T0], st)
  {
    hide Loaded, Reaches, ReadWord, Linked, Emissions, Next, Execute, LineCode;
    var lines := Leave(true);
    var m1 := RunCopy(w, lines, c, s, A0, T0);
    var m2, c2 := RunLi(w, lines[1..], c.(text := c.text + 4), m1, V0, 0);
    t := RunExit(w, lines[1..][1..], c2, m2);
    ReachesTrans(w, s, m1, m2);
    ReachesTrans(w, s, m2, t);
  }

  lemma {:induction false} RunLeaveFunction(w: World, c: Cursor, st: Source.Store, room: Source.Room, s: State)
    returns (t: State)
    requires Linked(w, Leave(false), c) && Ready(w, s, st, room, c)
    requires room.frames < STACK_FRAMES && s.regs[FP] == s.regs[SP]
    ensures ReturnedTo(w, s, t, s.regs[T0], st, room)
  {
    hide Loaded, Reaches, ReadWord, Linked, Emissions, Next;
    KeptStack(s.mem, s.mem, room, StackPointer(room));
    KeptStack(s.mem, s.mem, room, StackPointer(room) + 4);
    t := RunRet(w, Leave(false), c, s);
  }

  // ----- expressions -----

  /** Expression correctness: from any ready state the code lands behind itself with the source value
      in `$t0`, the variables as the source run leaves them, `$gp`, `$sp` and `$fp` as they were, and
      every word the caller had spilled or stacked untouched. */
  lemma {:induction false} RunExpr(w: World, e: Source.Expr, c: Cursor, st: Source.Store, fuel: nat,
                                   room: Source.Room, s: State) returns (t: State)
    requires WorldLinked(w) && Inside(w, c) && Linked(w, Rvalue(e), c) && Ready(w, s, st, room, c)
    requires Source.Eval(w.program, e, st, fuel, room).Some?
    ensures var d := Source.Eval(w.program, e, st, fuel, room).value;
      && Landed(w, s, t, d.store, room, End(Rvalue(e), c))
      && (d.value.Some? ==> t.regs[T0] == d.value.value)
    decreases fuel, e, 1
  {
    hide Plain, Loaded, Reaches, ReadWord, Linked, Emissions, Next, Fragment, Declare, WorldLinked;
    match e
    case Literal(v) =>
      var c';
      t, c' := RunLi(w, Rvalue(e), c, s, T0, v);
      EndOne(Li(T0, v), c);
      LandedRegister(w, s, t, st, room, c, c');
    case Identifier(x) =>
      PlainLoads(T0, 0, x);
      FragmentPlain([La(T0, x)]);
      var c1 := Cut(w, [La(T0, x)], LOAD, c);
      var m := RunLaT0(w, x, c, st, room, s);
      t := RunLoadT0(w, c1, st, room, m);
      LandedTrans(w, s, m, t, st, room, c1, st, End(LOAD, c1));
    case AddressOf(x) =>
      t := RunLaT0(w, x, c, st, room, s);
    case Declaration(x, kind) =>
      assert Rvalue(e) == Declare(x, kind);
      EndOfDeclare(x, kind, c);
      t := s;
      ReachesSelf(w, s);
    case Indirection(r) =>
      FragmentExpr(r, false);
      var c1 := Cut(w, Rvalue(r), LOAD, c);
      var m := RunExpr(w, r, c, st, fuel, room, s);
      var d := Source.Eval(w.program, r, st, fuel, room).value;
      t := RunLoadT0(w, c1, d.store, room, m);
      LandedTrans(w, s, m, t, d.store, room, c1, d.store, End(LOAD, c1));
    case Comma(first, second) =>
      LvalAfter(first, false);
      FragmentExpr(first, false);
      var c1 := Cut(w, Rvalue(first), Rvalue(second), c);
      var m := RunExpr(w, first, c, st, fuel, room, s);
      var st1 := Source.Eval(w.program, first, st, fuel, room).value.store;
      t := RunExpr(w, second, c1, st1, fuel, room, m);
      var d := Source.Eval(w.program, second, st1, fuel, room).value;
      LandedTrans(w, s, m, t, st1, room, c1, d.store, End(Rvalue(second), c1));
    case Binary(_, _, _) =>
      t := RunBinary(w, e, c, st, fuel, room, s);
    case Assignment(_, _) =>
      t := RunAssignment(w, e, c, st, fuel, room, s);
    case FunctionCall(_) =>
      t := RunFunctionCall(w, e, c, st, fuel, room, s);
  }

  lemma {:induction false} RunBinary(w: World, e: Source.Expr, c: Cursor, st: Source.Store, fuel: nat,
                                     room: Source.Room, s: State)
    returns (t: State)
    requires e.Binary?
    requires WorldLinked(w) && Inside(w, c) && Linked(w, Rvalue(e), c) && Ready(w, s, st, room, c)
    requires Source.Eval(w.program, e, st, fuel, room).Some?
    ensures var d := Source.Eval(w.program, e, st, fuel, room).value;
      && Landed(w, s, t, d.store, room, End(Rvalue(e), c))
      && (d.value.Some? ==> t.regs[T0] == d.value.value)
    decreases fuel, e, 0
  {
    hide Loaded, Reaches, ReadWord, Linked, Emissions, Next, Fragment, WorldLinked, Operate, Kept, VariablesHeld,
      Separated, End;
    var lhs, rhs, last := e.lhs, e.rhs, Operate(e.op);
    LvalAfter(lhs, false);
    FragmentExpr(lhs, false);
    FragmentExpr(rhs, false);
    var c1, c2, c3 := CutOperator(w, Rvalue(lhs), Rvalue(rhs), last, c);
    var m1 := RunExpr(w, lhs, c, st, fuel, room, s);
    var d1 := Source.Eval(w.program, lhs, st, fuel, room).value;
    var m2 := RunPush(w, c1, d1.store, room, m1);
    var inner := room.(spills := room.spills - 1);
    var m3 := RunExpr(w, rhs, c2, d1.store, fuel, inner, m2);
    var d2 := Source.Eval(w.program, rhs, d1.store, fuel, inner).value;
    KeptSpill(m2.mem, m3.mem, inner, SpillPointer(room));
    var m4, c4 := RunPop(w, last, c3, d2.store, room, m3);
    t := RunOperate(w, e.op, c4, d2.store, room, m4);
    AroundInner(w, s, m1, m2, m3, m4, t, d1.store, d2.store, d2.store, room, c1, c3, End(last, c4));
  }

  lemma {:induction false} RunAssignment(w: World, e: Source.Expr, c: Cursor, st: Source.Store, fuel: nat,
                                         room: Source.Room, s: State)
    returns (t: State)
    requires e.Assignment?
    requires WorldLinked(w) && Inside(w, c) && Linked(w, Rvalue(e), c) && Ready(w, s, st, room, c)
    requires Source.Eval(w.program, e, st, fuel, room).Some?
    ensures var d := Source.Eval(w.program, e, st, fuel, room).value;
      && Landed(w, s, t, d.store, room, End(Rvalue(e), c))
      && (d.value.Some? ==> t.regs[T0] == d.value.value)
    decreases fuel, e, 0
  {
    hide Loaded, Reaches, ReadWord, WriteWord, Linked, Emissions, Next, Fragment, WorldLinked, Kept, VariablesHeld,
      Separated, End;
    var left, rhs, last := GenExpr(e.lhs, true).lines, e.rhs, STORE;
    var a := Source.Locate(w.program, e.lhs, st).value;
    FragmentExpr(e.lhs, true);
    FragmentExpr(rhs, false);
    var c1, c2, c3 := CutOperator(w, left, Rvalue(rhs), last, c);
    var m1 := RunAddress(w, e.lhs, c, st, room, s);
    var m2 := RunPush(w, c1, st, room, m1);
    var inner := room.(spills := room.spills - 1);
    var m3 := RunExpr(w, rhs, c2, st, fuel, inner, m2);
    var d := Source.Eval(w.program, rhs, st, fuel, inner).value;
    KeptSpill(m2.mem, m3.mem, inner, SpillPointer(room));
    var m4, c4 := RunPop(w, last, c3, d.store, room, m3);
    t := RunStoreThrough(w, c4, d.store, room, m4);
    AroundInner(w, s, m1, m2, m3, m4, t, st, d.store, d.store[a := d.value.value], room, c1, c3, End(last, c4));
  }

  lemma {:induction false} RunFunctionCall(w: World, e: Source.Expr, c: Cursor, st: Source.Store, fuel: nat,
                                           room: Source.Room, s: State)
    returns (t: State)
    requires e.FunctionCall?
    requires WorldLinked(w) && Inside(w, c) && Linked(w, Rvalue(e), c) && Ready(w, s, st, room, c)
    requires Source.Eval(w.program, e, st, fuel, room).Some?
    ensures var d := Source.Eval(w.program, e, st, fuel, room).value;
      && Landed(w, s, t, d.store, room, End(Rvalue(e), c))
      && (d.value.Some? ==> t.regs[T0] == d.value.value)
    decreases fuel, e, 0
  {
    hide Loaded, Reaches, ReadWord, Linked, Emissions, Next, Fragment, WorldLinked, Kept, VariablesHeld, Separated,
      GenStmt, GenFunction, End;
    var f := e.name;
    var inner := room.(frames := room.frames - 1);
    var back := End([Call(f)], c);
    var c1, c2 := FunctionPlaces(w, f);
    var body, home := w.program.functions[f], w.home[f];
    var m2 := CallFunction(w, f, c, c1, st, room, s);
    var o := Source.Exec(w.program, body, st, fuel - 1, inner);
    var m3 := RunStmt(w, body, home.uid, false, c1, st, fuel - 1, inner, m2);
    match o {
      case Normal(st1) =>
        t := RunLeaveFunction(w, c2, st1, inner, m3);
        FinishedAfter(w, m2, m3, st1, c2, t, Source.Returned(m3.regs[T0], st1), inner, c2, false);
        BackInCaller(w, s, m2, st, c1, t, m3.regs[T0], st1, room, back);
      case Returned(v, st1) =>
        t := m3;
        BackInCaller(w, s, m2, st, c1, t, v, st1, room, back);
    }
  }

  /** Inside a new frame whose two words are the caller's frame pointer and the return address. */
  ghost predicate Entered(w: World, s: State, t: State, st: Source.Store, room: Source.Room, c: Cursor, back: int) {
    && room.frames > 0
    && var inner := room.(frames := room.frames - 1);
    && Reaches(w, s, t) && Ready(w, t, st, inner, c)
    && t.regs[FP] == t.regs[SP] && Kept(s.mem, t.mem, room)
    && ReadWord(t.mem, StackPointer(inner)) == Some(s.regs[FP])
    && ReadWord(t.mem, StackPointer(inner) + 4) == Some(back)
  }

  /** The cursors in front of and behind the body of a callable function. */
  lemma {:induction false} FunctionPlaces(w: World, f: string) returns (c1: Cursor, c2: Cursor)
    requires WorldLinked(w) && f in w.program.functions
    ensures f in w.home
    ensures var code := GenStmt(w.program.functions[f], w.home[f].uid, false).lines;
      && f in w.env && w.env[f] == w.home[f].cursor.text && Inside(w, w.home[f].cursor)
      && Linked(w, [Enter], w.home[f].cursor) && c1 == w.home[f].cursor.(text := w.home[f].cursor.text + 20)
      && Inside(w, c1) && Linked(w, code, c1)
      && c2 == End(code, c1) && Inside(w, c2) && Linked(w, Leave(false), c2)
  {
    hide Plain, Linked, Fragment, GenStmt, Next;
    var home := w.home[f];
    var code := GenStmt(w.program.functions[f], home.uid, false).lines;
    LabelHere(w, f, [Enter] + (code + [Ret]), home.cursor);
    PlainFrame();
    FragmentPlain([Enter]);
    c1 := Cut(w, [Enter], code + [Ret], home.cursor);
    CodeOfEnter(home.cursor, w.env);
    EndOne(Enter, home.cursor);
    FragmentStmt(w.program.functions[f], home.uid, false);
    c2 := Cut(w, code, [Ret], c1);
  }

  /** From a call to the start of the callee's body, in a frame of its own. */
  lemma {:induction false} CallFunction(w: World, f: string, c: Cursor, c1: Cursor, st: Source.Store,
                                        room: Source.Room, s: State)
    returns (t: State)
    requires Linked(w, [Call(f)], c) && Ready(w, s, st, room, c) && room.frames > 0
    requires f in w.env && f in w.home && w.env[f] == w.home[f].cursor.text
    requires Inside(w, w.home[f].cursor) && Linked(w, [Enter], w.home[f].cursor)
    requires c1 == w.home[f].cursor.(text := w.home[f].cursor.text + 20)
    ensures Entered(w, s, t, st, room, c1, End([Call(f)], c).text) && End([Call(f)], c).segment.TextSegment?
  {
    hide Loaded, Reaches, ReadWord, Linked, Emissions, Next, VariablesHeld, Separated, Kept, LineCode, End;
    LoadedRange(w, s);
    var m := RunCall(w, [Call(f)], c, s, f);
    NextOfSingle(Call(f), c);
    EndOne(Call(f), c);
    t := EnterFrame(w, [Enter], w.home[f].cursor, st, room, m);
    ReachesTrans(w, s, m, t);
  }

  lemma LoadedRange(w: World, s: State)
    requires Sane(w, s)
    ensures 4 * |w.code| < BRANCH_RANGE
  {
  }

  /** `enter` after a call: a frame with the caller's frame pointer and the return address on top. */
  lemma {:induction false} EnterFrame(w: World, lines: seq<Line>, c: Cursor, st: Source.Store, room: Source.Room,
                                      s: State)
    returns (t: State)
    requires lines != [] && lines[0] == Enter && Linked(w, lines, c) && room.frames > 0
    requires Ready(w, s, st, room, c)
    ensures Entered(w, s, t, st, room, c.(text := c.text + 20), s.regs[RA])
  {
    hide Loaded, Reaches, ReadWord, WriteWord, Linked, Emissions, Next, VariablesHeld, Separated, Kept;
    t := RunEnter(w, lines, c, s);
    StoreFrame(w.code, s.mem, st, room, s.regs[RA], s.regs[FP]);
  }

  /** The two words of a frame go below everything the caller had stacked. */
  lemma StoreFrame(code: seq<Instr>, m0: Memory, st: Source.Store, room: Source.Room, ra: Word, fp: Word)
    requires Loaded(code, m0) && VariablesHeld(m0, st) && |m0.stack| == STACK_SIZE && |m0.global| == GLOBAL_SIZE
    requires room.spills <= SPILL_WORDS && 0 < room.frames <= STACK_FRAMES
    ensures WriteWord(m0, StackPointer(room) - 4, ra).Some?
    ensures var m1 := WriteWord(m0, StackPointer(room) - 4, ra).value;
      && WriteWord(m1, StackPointer(room) - 8, fp).Some?
      && var m2 := WriteWord(m1, StackPointer(room) - 8, fp).value;
      && Loaded(code, m2) && VariablesHeld(m2, st) && |m2.stack| == STACK_SIZE && |m2.global| == GLOBAL_SIZE
      && Kept(m0, m2, room)
      && ReadWord(m2, StackPointer(room) - 8) == Some(fp) && ReadWord(m2, StackPointer(room) - 4) == Some(ra)
  {
    hide Loaded, ReadWord, WriteWord, VariablesHeld;
    var sp := StackPointer(room);
    StoreScratch(code, m0, st, sp - 4, ra);
    var m1 := WriteWord(m0, sp - 4, ra).value;
    StoreScratch(code, m1, st, sp - 8, fp);
    var m2 := WriteWord(m1, sp - 8, fp).value;
    WriteThenRead(m1, sp - 8, fp, sp - 4);
    var i := sp - STACK_OFFSET;
    assert m2.stack[i..] == m2.stack[i - 4..][4..] == m1.stack[i - 4..][4..] == m1.stack[i..];
  }

  /** The frame's two words put the caller's `$fp` back and the program counter behind the call. */
  lemma BackInCaller(w: World, s: State, m: State, st0: Source.Store, c0: Cursor, t: State, v: Word,
                     st: Source.Store, room: Source.Room, c: Cursor)
    requires Sane(w, s) && s.regs[GP] == SpillPointer(room)
    requires Entered(w, s, m, st0, room, c0, c.text)
    requires ReturnedTo(w, m, t, v, st, room.(frames := room.frames - 1))
    requires c.segment.TextSegment?
    ensures Landed(w, s, t, st, room, c) && t.regs[T0] == v
  {
    hide Loaded, Reaches, ReadWord;
    var inner := room.(frames := room.frames - 1);
    ReachesTrans(w, s, m, t);
    KeptWeaken(m.mem, t.mem, inner, room);
  }

  lemma {:induction false} RunOptional(w: World, e: Option<Source.Expr>, c: Cursor, st: Source.Store, fuel: nat,
                                       room: Source.Room, s: State)
    returns (t: State)
    requires WorldLinked(w) && Inside(w, c) && Linked(w, RvalueOptional(e), c) && Ready(w, s, st, room, c)
    requires Source.EvalOptional(w.program, e, st, fuel, room).Some?
    ensures Landed(w, s, t, Source.EvalOptional(w.program, e, st, fuel, room).value, room, End(RvalueOptional(e), c))
    decreases fuel, e, 2
  {
    hide Loaded, Reaches, ReadWord, Linked;
    match e
    case Some(x) => t := RunExpr(w, x, c, st, fuel, room, s);
    case None =>
      t := s;
      ReachesSelf(w, s);
  }

  // ----- statements -----

  /** Statement correctness: a terminating source run is matched by a run of the generated code, to
      just behind it, back to the caller, or to the exit. */
  lemma {:induction false} RunStmt(w: World, s: Source.Stmt, uid: nat, entry: bool, c: Cursor, st: Source.Store,
                                   fuel: nat, room: Source.Room, m: State) returns (t: State)
    requires WorldLinked(w) && Inside(w, c) && Linked(w, GenStmt(s, uid, entry).lines, c) && Ready(w, m, st, room, c)
    requires !entry ==> room.frames < STACK_FRAMES && m.regs[FP] == m.regs[SP]
    requires !Source.Exec(w.program, s, st, fuel, room).Undefined?
    ensures Finished(w, m, t, Source.Exec(w.program, s, st, fuel, room), room,
                     End(GenStmt(s, uid, entry).lines, c), entry)
    decreases fuel, s, 3
  {
    hide Loaded, Reaches, ReadWord, Linked, Emissions, Next, Fragment, WorldLinked, GenExpr;
    match s
    case Empty =>
      t := m;
      ReachesSelf(w, m);
    case Expression(e) =>
      t := RunExpr(w, e, c, st, fuel, room, m);
    case Return(e) =>
      FragmentExpr(e, false);
      var c1 := Cut(w, Rvalue(e), Leave(entry), c);
      var m1 := RunExpr(w, e, c, st, fuel, room, m);
      var d := Source.Eval(w.program, e, st, fuel, room).value;
      if entry {
        t := RunLeaveEntry(w, c1, d.store, room, m1);
      } else {
        t := RunLeaveFunction(w, c1, d.store, room, m1);
      }
      FinishedAfter(w, m, m1, d.store, c1, t, Source.Exec(w.program, s, st, fuel, room), room, End(Leave(entry), c1), entry);
    case Compound(first, second) =>
      var g1 := GenStmt(first, uid, entry);
      FragmentStmt(first, uid, entry);
      var c1 := Cut(w, g1.lines, GenStmt(second, g1.uid, entry).lines, c);
      t := RunStmt(w, first, uid, entry, c, st, fuel, room, m);
      var o := Source.Exec(w.program, first, st, fuel, room);
      if o.Normal? {
        var m1 := t;
        t := RunStmt(w, second, g1.uid, entry, c1, o.store, fuel, room, m1);
        FinishedAfter(w, m, m1, o.store, c1, t, Source.Exec(w.program, second, o.store, fuel, room), room,
                      End(GenStmt(second, g1.uid, entry).lines, c1), entry);
      }
    case IfThen(_, _) =>
      t := RunIfThen(w, s, uid, entry, c, st, fuel, room, m);
    case IfThenElse(_, _, _) =>
      t := RunIfThenElse(w, s, uid, entry, c, st, fuel, room, m);
    case While(_, _) =>
      t := RunWhile(w, s, uid, entry, c, st, fuel, room, m);
    case For(_, _, _, _) =>
      t := RunForLoop(w, s, uid, entry, c, st, fuel, room, m);
  }

  /** A conditional jump from one ready cursor to another. */
  lemma {:induction false} Branch(w: World, line: Line, c: Cursor, st: Source.Store, room: Source.Room, s: State,
                                  target: string, taken: bool, c': Cursor) returns (t: State)
    requires Linked(w, [line], c) && Ready(w, s, st, room, c)
    requires || (line == Branch2(BNE, T0, ZERO, target) && taken == (s.regs[T0] != 0))
             || (line == Beqz(T0, target) && taken == (s.regs[T0] == 0))
             || (line == B(target) && taken)
    requires target in w.env && w.env[target] < BRANCH_RANGE
    requires c'.segment.TextSegment?
    requires c'.text == if taken then w.env[target] else End([line], c).text
    ensures Landed(w, s, t, st, room, c')
  {
    hide Loaded, Reaches, ReadWord, Linked, Emissions, Next;
    t := RunBranch(w, [line], c, s, T0, target, taken);
    NextOfSingle(line, c);
    EndOne(line, c);
    LandedRegister(w, s, t, st, room, c, c');
  }

  lemma {:induction false} RunIfThen(w: World, s: Source.Stmt, uid: nat, entry: bool, c: Cursor, st: Source.Store,
                                     fuel: nat, room: Source.Room, m: State) returns (t: State)
    requires s.IfThen?
    requires WorldLinked(w) && Inside(w, c) && Linked(w, GenStmt(s, uid, entry).lines, c) && Ready(w, m, st, room, c)
    requires !entry ==> room.frames < STACK_FRAMES && m.regs[FP] == m.regs[SP]
    requires !Source.Exec(w.program, s, st, fuel, room).Undefined?
    ensures Finished(w, m, t, Source.Exec(w.program, s, st, fuel, room), room,
                     End(GenStmt(s, uid, entry).lines, c), entry)
    decreases fuel, s, 2
  {
    hide Plain, Loaded, Reaches, ReadWord, Linked, Emissions, Next, Fragment, WorldLinked, GenExpr, UidLabel;
    var last := [Label(UidLabel(uid))];
    var body := GenStmt(s.trueBody, uid + 1, entry).lines;
    var jump := Beqz(T0, UidLabel(uid));
    FragmentExpr(s.condition, false);
    FragmentStmt(s.trueBody, uid + 1, entry);
    PlainLines(UidLabel(uid));
    FragmentPlain([jump]);
    var c1 := Cut(w, Rvalue(s.condition), [jump] + (body + last), c);
    var c2 := Cut(w, [jump], body + last, c1);
    var c3 := Cut(w, body, last, c2);
    assert last == [Label(UidLabel(uid))] + [];
    LabelHere(w, UidLabel(uid), [], c3);
    LoadedRange(w, m);
    var m1 := RunExpr(w, s.condition, c, st, fuel, room, m);
    var d := Source.Eval(w.program, s.condition, st, fuel, room).value;
    if d.value.value == 0 {
      t := Branch(w, jump, c1, d.store, room, m1, UidLabel(uid), true, c3);
      LandedTrans(w, m, m1, t, d.store, room, c1, d.store, c3);
    } else {
      var m2 := Branch(w, jump, c1, d.store, room, m1, UidLabel(uid), false, c2);
      LandedTrans(w, m, m1, m2, d.store, room, c1, d.store, c2);
      t := RunStmt(w, s.trueBody, uid + 1, entry, c2, d.store, fuel, room, m2);
      FinishedAfter(w, m, m2, d.store, c2, t, Source.Exec(w.program, s.trueBody, d.store, fuel, room), room, c3, entry);
    }
  }

  /** The places of a linked `if`-`else`. */
  lemma {:induction false} CutIfThenElse(w: World, s: Source.Stmt, uid: nat, entry: bool, c: Cursor)
    returns (c1: Cursor, c2: Cursor, c3: Cursor, c4: Cursor, c5: Cursor)
    requires s.IfThenElse?
    requires Inside(w, c) && Linked(w, GenStmt(s, uid, entry).lines, c)
    ensures Inside(w, c1) && Inside(w, c2) && Inside(w, c3) && Inside(w, c4) && Inside(w, c5)
    ensures var g1 := GenStmt(s.trueBody, uid + 2, entry);
      var g2 := GenStmt(s.falseBody, g1.uid, entry);
      && Linked(w, Rvalue(s.condition), c) && c1 == End(Rvalue(s.condition), c)
      && Linked(w, [Beqz(T0, UidLabel(uid + 1))], c1) && c2 == End([Beqz(T0, UidLabel(uid + 1))], c1)
      && Linked(w, g1.lines, c2) && c3 == End(g1.lines, c2)
      && Linked(w, [B(UidLabel(uid))], c3)
      && Linked(w, g2.lines, c4) && c5 == End(g2.lines, c4)
    ensures UidLabel(uid + 1) in w.env && w.env[UidLabel(uid + 1)] == c4.text
    ensures UidLabel(uid) in w.env && w.env[UidLabel(uid)] == c5.text
    ensures End(GenStmt(s, uid, entry).lines, c) == c5
  {
    hide Plain, Linked, Next, Fragment, GenExpr, UidLabel;
    var endLabel, elseLabel := UidLabel(uid), UidLabel(uid + 1);
    var g1 := GenStmt(s.trueBody, uid + 2, entry);
    var code1, code2 := g1.lines, GenStmt(s.falseBody, g1.uid, entry).lines;
    var jump, skip, last := Beqz(T0, elseLabel), B(endLabel), [Label(endLabel)];
    FragmentExpr(s.condition, false);
    FragmentStmt(s.trueBody, uid + 2, entry);
    FragmentStmt(s.falseBody, g1.uid, entry);
    PlainLines(elseLabel);
    PlainLines(endLabel);
    FragmentPlain([jump]);
    FragmentPlain([skip]);
    var tail2 := [Label(elseLabel)] + (code2 + last);
    assert [skip, Label(elseLabel)] + (code2 + last) == [skip] + tail2;
    c1 := Cut(w, Rvalue(s.condition), [jump] + (code1 + ([skip] + tail2)), c);
    c2 := Cut(w, [jump], code1 + ([skip] + tail2), c1);
    c3 := Cut(w, code1, [skip] + tail2, c2);
    c4 := Cut(w, [skip], tail2, c3);
    LabelHere(w, elseLabel, code2 + last, c4);
    c5 := Cut(w, code2, last, c4);
    assert last == [Label(endLabel)] + [];
    LabelHere(w, endLabel, [], c5);
    EndOfNothing(c5);
  }

  lemma {:induction false} RunIfThenElse(w: World, s: Source.Stmt, uid: nat, entry: bool, c: Cursor, st: Source.Store,
                                         fuel: nat, room: Source.Room, m: State) returns (t: State)
    requires s.IfThenElse?
    requires WorldLinked(w) && Inside(w, c) && Linked(w, GenStmt(s, uid, entry).lines, c) && Ready(w, m, st, room, c)
    requires !entry ==> room.frames < STACK_FRAMES && m.regs[FP] == m.regs[SP]
    requires !Source.Exec(w.program, s, st, fuel, room).Undefined?
    ensures Finished(w, m, t, Source.Exec(w.program, s, st, fuel, room), room,
                     End(GenStmt(s, uid, entry).lines, c), entry)
    decreases fuel, s, 2
  {
    hide Loaded, Reaches, ReadWord, Linked, Emissions, Next, Fragment, WorldLinked, GenExpr, GenStmt, UidLabel, End;
    var endLabel, elseLabel := UidLabel(uid), UidLabel(uid + 1);
    var g1 := GenStmt(s.trueBody, uid + 2, entry);
    var jump, skip := Beqz(T0, elseLabel), B(endLabel);
    var c1, c2, c3, c4, c5 := CutIfThenElse(w, s, uid, entry, c);
    LoadedRange(w, m);
    var m1 := RunExpr(w, s.condition, c, st, fuel, room, m);
    var d := Source.Eval(w.program, s.condition, st, fuel, room).value;
    if d.value.value == 0 {
      var m2 := Branch(w, jump, c1, d.store, room, m1, elseLabel, true, c4);
      LandedTrans(w, m, m1, m2, d.store, room, c1, d.store, c4);
      t := RunStmt(w, s.falseBody, g1.uid, entry, c4, d.store, fuel, room, m2);
      FinishedAfter(w, m, m2, d.store, c4, t, Source.Exec(w.program, s.falseBody, d.store, fuel, room), room, c5, entry);
    } else {
      var m2 := Branch(w, jump, c1, d.store, room, m1, elseLabel, false, c2);
      LandedTrans(w, m, m1, m2, d.store, room, c1, d.store, c2);
      t := RunStmt(w, s.trueBody, uid + 2, entry, c2, d.store, fuel, room, m2);
      var o := Source.Exec(w.program, s.trueBody, d.store, fuel, room);
      FinishedAfter(w, m, m2, d.store, c2, t, o, room, c3, entry);
      if o.Normal? {
        var m3 := t;
        t := Branch(w, skip, c3, o.store, room, m3, endLabel, true, c5);
        LandedTrans(w, m, m3, t, o.store, room, c3, o.store, c5);
      }
    }
  }

  // ----- loops -----

  function IncrementOf(s: Source.Stmt): seq<Line>
    requires s.While? || s.For?
  {
    if s.For? then RvalueOptional(s.increment) else []
  }

  function TailOf(s: Source.Stmt, top: nat, uid: nat, entry: bool): seq<Line>
    requires s.While? || s.For?
  {
    LoopTail(top, top + 1, GenStmt(s.body, uid, entry).lines, IncrementOf(s), Rvalue(s.condition))
  }

  /** The cursor in front of the repeated test. */
  function TestCursor(s: Source.Stmt, uid: nat, entry: bool, c: Cursor): Cursor
    requires s.While? || s.For?
  {
    End(IncrementOf(s), End(GenStmt(s.body, uid, entry).lines, c))
  }

  /** The places of a linked loop tail. */
  lemma {:induction false} CutTail(w: World, s: Source.Stmt, top: nat, uid: nat, entry: bool, c: Cursor)
    returns (c1: Cursor, c2: Cursor, c3: Cursor)
    requires s.While? || s.For?
    requires Linked(w, TailOf(s, top, uid, entry), c) && Inside(w, c)
    ensures UidLabel(top) in w.env && w.env[UidLabel(top)] == c.text
    ensures UidLabel(top + 1) in w.env && w.env[UidLabel(top + 1)] == TestCursorStart(s, uid, entry, c).text
    ensures c1 == End(GenStmt(s.body, uid, entry).lines, c) && Inside(w, c1)
    ensures c2 == End(IncrementOf(s), c1) == TestCursor(s, uid, entry, c) && Inside(w, c2)
    ensures c3 == End(Rvalue(s.condition), c2) && Inside(w, c3)
    ensures Linked(w, GenStmt(s.body, uid, entry).lines, c) && Linked(w, IncrementOf(s), c1)
    ensures Linked(w, Rvalue(s.condition), c2) && Linked(w, [Branch2(BNE, T0, ZERO, UidLabel(top))], c3)
    ensures End(TailOf(s, top, uid, entry), c) == End([Branch2(BNE, T0, ZERO, UidLabel(top))], c3)
  {
    hide Plain, Linked, Fragment, UidLabel, GenExpr, GenStmt, End;
    var jump := [Branch2(BNE, T0, ZERO, UidLabel(top))];
    var body, increment, test := GenStmt(s.body, uid, entry).lines, IncrementOf(s), Rvalue(s.condition);
    FragmentStmt(s.body, uid, entry);
    FragmentExpr(s.condition, false);
    if s.For? {
      FragmentOptional(s.increment);
    } else {
      FragmentPlain(increment);
    }
    LabelHere(w, UidLabel(top), body + ([Label(UidLabel(top + 1))] + (increment + (test + jump))), c);
    c1 := Cut(w, body, [Label(UidLabel(top + 1))] + (increment + (test + jump)), c);
    LabelHere(w, UidLabel(top + 1), increment + (test + jump), c1);
    c2 := Cut(w, increment, test + jump, c1);
    c3 := Cut(w, test, jump, c2);
  }

  function TestCursorStart(s: Source.Stmt, uid: nat, entry: bool, c: Cursor): Cursor
    requires s.While? || s.For?
  {
    End(GenStmt(s.body, uid, entry).lines, c)
  }

  /** From the repeated test of a loop to its end. */
  lemma {:induction false} RunTest(w: World, s: Source.Stmt, top: nat, uid: nat, entry: bool, c: Cursor,
                                   st: Source.Store, fuel: nat, room: Source.Room, m: State) returns (t: State)
    requires s.While? || s.For?
    requires WorldLinked(w) && Inside(w, c) && Linked(w, TailOf(s, top, uid, entry), c)
    requires Ready(w, m, st, room, TestCursor(s, uid, entry, c))
    requires !entry ==> room.frames < STACK_FRAMES && m.regs[FP] == m.regs[SP]
    requires !Source.Loop(w.program, s, st, fuel, room).Undefined?
    ensures Finished(w, m, t, Source.Loop(w.program, s, st, fuel, room), room,
                     End(TailOf(s, top, uid, entry), c), entry)
    decreases fuel, s, 1
  {
    hide Plain, Loaded, Reaches, ReadWord, Linked, Emissions, Next, Fragment, WorldLinked, GenExpr, GenStmt, UidLabel,
      End;
    var c1, c2, c3 := CutTail(w, s, top, uid, entry, c);
    var jump := Branch2(BNE, T0, ZERO, UidLabel(top));
    var cEnd := End(TailOf(s, top, uid, entry), c);
    LoadedRange(w, m);
    var m1 := RunExpr(w, s.condition, c2, st, fuel, room, m);
    var d := Source.Eval(w.program, s.condition, st, fuel, room).value;
    PlainLines(UidLabel(top));
    FragmentPlain([jump]);
    TextAfter([jump], c3);
    if d.value.value == 0 {
      t := Branch(w, jump, c3, d.store, room, m1, UidLabel(top), false, cEnd);
      LandedTrans(w, m, m1, t, d.store, room, c3, d.store, cEnd);
    } else {
      var m2 := Branch(w, jump, c3, d.store, room, m1, UidLabel(top), true, c);
      LandedTrans(w, m, m1, m2, d.store, room, c3, d.store, c);
      t := RunTurn(w, s, top, uid, entry, c, d.store, fuel, room, m2);
      FinishedAfter(w, m, m2, d.store, c, t, Source.Turn(w.program, s, d.store, fuel, room), room, cEnd, entry);
    }
  }

  lemma TextAfter(lines: seq<Line>, c: Cursor)
    requires Fragment(lines) && c.segment.TextSegment?
    ensures End(lines, c).segment.TextSegment?
  {
  }

  /** From the start of the body of a loop, its test having succeeded, to its end. */
  lemma {:induction false} RunTurn(w: World, s: Source.Stmt, top: nat, uid: nat, entry: bool, c: Cursor,
                                   st: Source.Store, fuel: nat, room: Source.Room, m: State) returns (t: State)
    requires s.While? || s.For?
    requires WorldLinked(w) && Inside(w, c) && Linked(w, TailOf(s, top, uid, entry), c)
    requires Ready(w, m, st, room, c)
    requires !entry ==> room.frames < STACK_FRAMES && m.regs[FP] == m.regs[SP]
    requires !Source.Turn(w.program, s, st, fuel, room).Undefined?
    ensures Finished(w, m, t, Source.Turn(w.program, s, st, fuel, room), room,
                     End(TailOf(s, top, uid, entry), c), entry)
    decreases fuel, s, 0
  {
    hide Loaded, Reaches, ReadWord, Linked, Emissions, Next, Fragment, WorldLinked, GenExpr, GenStmt, UidLabel, End;
    var c1, c2, c3 := CutTail(w, s, top, uid, entry, c);
    var cEnd := End(TailOf(s, top, uid, entry), c);
    t := RunStmt(w, s.body, uid, entry, c, st, fuel, room, m);
    var o := Source.Exec(w.program, s.body, st, fuel, room);
    if o.Normal? {
      var m1 := t;
      var m2 := m1;
      var st2 := o.store;
      if s.For? {
        m2 := RunOptional(w, s.increment, c1, o.store, fuel, room, m1);
        st2 := Source.EvalOptional(w.program, s.increment, o.store, fuel, room).value;
        LandedTrans(w, m, m1, m2, o.store, room, c1, st2, c2);
      } else {
        EndOfNothing(c1);
      }
      t := RunTest(w, s, top, uid, entry, c, st2, fuel - 1, room, m2);
      FinishedAfter(w, m, m2, st2, c2, t, Source.Loop(w.program, s, st2, fuel - 1, room), room, cEnd, entry);
    }
  }

  lemma EndOfNothing(c: Cursor)
    ensures End([], c) == c
  {
  }

  /** `while`: jump to the test at the bottom first. */
  lemma {:induction false} RunWhile(w: World, s: Source.Stmt, uid: nat, entry: bool, c: Cursor, st: Source.Store,
                                    fuel: nat, room: Source.Room, m: State) returns (t: State)
    requires s.While?
    requires WorldLinked(w) && Inside(w, c) && Linked(w, GenStmt(s, uid, entry).lines, c) && Ready(w, m, st, room, c)
    requires !entry ==> room.frames < STACK_FRAMES && m.regs[FP] == m.regs[SP]
    requires !Source.Exec(w.program, s, st, fuel, room).Undefined?
    ensures Finished(w, m, t, Source.Exec(w.program, s, st, fuel, room), room,
                     End(GenStmt(s, uid, entry).lines, c), entry)
    decreases fuel, s, 2
  {
    hide Plain, Loaded, Reaches, ReadWord, Linked, Emissions, Next, Fragment, WorldLinked, GenExpr, UidLabel;
    var tail := TailOf(s, uid, uid + 2, entry);
    var jump := B(UidLabel(uid + 1));
    PlainLines(UidLabel(uid + 1));
    FragmentPlain([jump]);
    var c1 := Cut(w, [jump], tail, c);
    var c2, c3, c4 := CutTail(w, s, uid, uid + 2, entry, c1);
    EndOfNothing(c2);
    LoadedRange(w, m);
    var m1 := Branch(w, jump, c, st, room, m, UidLabel(uid + 1), true, c3);
    t := RunTest(w, s, uid, uid + 2, entry, c1, st, fuel, room, m1);
    FinishedAfter(w, m, m1, st, c3, t, Source.Loop(w.program, s, st, fuel, room), room, End(tail, c1), entry);
  }

  /** `for`: the test is generated twice, in front of the body to skip it and behind to repeat it. */
  lemma {:induction false} RunForLoop(w: World, s: Source.Stmt, uid: nat, entry: bool, c: Cursor, st: Source.Store,
                                      fuel: nat, room: Source.Room, m: State) returns (t: State)
    requires s.For?
    requires WorldLinked(w) && Inside(w, c) && Linked(w, GenStmt(s, uid, entry).lines, c) && Ready(w, m, st, room, c)
    requires !entry ==> room.frames < STACK_FRAMES && m.regs[FP] == m.regs[SP]
    requires !Source.Exec(w.program, s, st, fuel, room).Undefined?
    ensures Finished(w, m, t, Source.Exec(w.program, s, st, fuel, room), room,
                     End(GenStmt(s, uid, entry).lines, c), entry)
    decreases fuel, s, 2
  {
    hide Plain, Loaded, Reaches, ReadWord, Linked, Emissions, Next, Fragment, WorldLinked, GenExpr, UidLabel;
    var first, test, tail := RvalueOptional(s.initialize), Rvalue(s.condition), TailOf(s, uid, uid + 3, entry);
    var endLabel := UidLabel(uid + 2);
    var jump, last := Beqz(T0, endLabel), [Label(endLabel)];
    FragmentOptional(s.initialize);
    FragmentExpr(s.condition, false);
    PlainLines(endLabel);
    FragmentPlain([jump]);
    FragmentOptional(s.increment);
    FragmentStmt(s.body, uid + 3, entry);
    FragmentTail(uid, uid + 1, GenStmt(s.body, uid + 3, entry).lines, RvalueOptional(s.increment), test);
    var c1 := Cut(w, first, test + ([jump] + (tail + last)), c);
    var c2 := Cut(w, test, [jump] + (tail + last), c1);
    var c3 := Cut(w, [jump], tail + last, c2);
    var c4 := Cut(w, tail, last, c3);
    assert last == [Label(endLabel)] + [];
    LabelHere(w, endLabel, [], c4);
    LoadedRange(w, m);
    var m1 := RunOptional(w, s.initialize, c, st, fuel, room, m);
    var st1 := Source.EvalOptional(w.program, s.initialize, st, fuel, room).value;
    var m2 := RunExpr(w, s.condition, c1, st1, fuel, room, m1);
    var d := Source.Eval(w.program, s.condition, st1, fuel, room).value;
    LandedTrans(w, m, m1, m2, st1, room, c1, d.store, c2);
    if d.value.value == 0 {
      t := Branch(w, jump, c2, d.store, room, m2, endLabel, true, c4);
      LandedTrans(w, m, m2, t, d.store, room, c2, d.store, c4);
    } else {
      var m3 := Branch(w, jump, c2, d.store, room, m2, endLabel, false, c3);
      LandedTrans(w, m, m2, m3, d.store, room, c2, d.store, c3);
      t := RunTurn(w, s, uid, uid + 3, entry, c3, d.store, fuel, room, m3);
      FinishedAfter(w, m, m3, d.store, c3, t, Source.Turn(w.program, s, d.store, fuel, room), room, c4, entry);
    }
  }
}

/** A generated program can write over its own text. What it loses by that, shown on a program the toolchain
    accepts: a later instruction is replaced with one that changes `$zero`. */
module SelfModification {
  import opened Words
  import opened Isa
  import opened Machine
  import opened Assembly
  import opened Builder
  import opened Execution
  import opened Frames
  import opened Fragments
  import opened CodeGeneration
  import opened Declarations
  import opened Correctness
  import opened Naming
  import opened EndToEnd
  import Names
  import Source

  /** The word of `lui $zero, 1`; as a literal it is below 2^31. */
  const LUI_ZERO: Word := 0x5000_0001

  /** Where the instruction behind the second assignment is. */
  const VICTIM: Word := 76

  const SET: Source.Expr := Source.Assignment(Source.Declaration("p", Source.U32), Source.Literal(VICTIM))
  const SMASH: Source.Expr := Source.Assignment(Source.Indirection(Source.Identifier("p")), Source.Literal(LUI_ZERO))

  /** `p: u32 = 76; @p = 1342177281; return 0;` as the body of `entry`. */
  const BODY: Source.Stmt := Source.Compound(
    Source.Compound(Source.Compound(Source.Empty, Source.Expression(SET)), Source.Expression(SMASH)),
    Source.Return(Source.Literal(0)))

  const PROGRAM: seq<TopLevel> := [Function(Source.ENTRY, BODY)]

  lemma DecodesToLui()
    ensures Decode(LUI_ZERO) == Some(InsRL(LUI, ZERO, 1))
  {
    assert Upper(LUI_ZERO) == 0x5000 && Lower(LUI_ZERO) == 1;
  }

  // ----- the program is accepted -----

  lemma Accepted()
    ensures WellNamed(PROGRAM, 0) && StartsWithEntry(PROGRAM)
  {
    hide Names.IsName, IsLabelOf;
    NamesOfBody();
    NamesRead();
    assert PROGRAM[1..] == [] && ProgramNames([]) == NOTHING && ProgramLabels([]) == 0;
    assert TopLevelNames(PROGRAM[0]) == Both(Summary(multiset{"entry"}, {}, true), StmtNames(BODY));
    var n := ProgramNames(PROGRAM);
    assert n.used == {"p"} && n.lexes;
    assert n.defined == multiset{"entry", "p"};
    assert ProgramLabels(PROGRAM) == 0;
    NoLabel("entry");
    NoLabel("p");
  }

  lemma NoLabel(x: string)
    ensures !IsLabelOf(x, 0, 0)
  {
  }

  lemma NamesRead()
    ensures Names.IsName("entry") && Names.IsName("p")
  {
    var e, p := Names.LowerCase("entry"), Names.LowerCase("p");
    assert |e| == 5 && e[3] == 'r' && e[4] == 'y';
    assert |p| == 1 && p[0] == 'p';
  }

  lemma NamesOfAssignments()
    ensures ExprNames(SET) == Summary(multiset{"p"}, {}, true) && ExprNames(SMASH) == Summary(multiset{}, {"p"}, true)
  {
    NothingBeside(ExprNames(SET.lhs), ExprNames(SET.rhs));
    NothingBeside(ExprNames(SMASH.lhs), ExprNames(SMASH.rhs));
  }

  lemma NamesOfBody()
    ensures StmtNames(BODY) == Summary(multiset{"p"}, {"p"}, true) && StmtLabels(BODY) == 0
  {
    NamesOfAssignments();
    hide ExprNames;
    var s1, s2 := Source.Compound(Source.Empty, Source.Expression(SET)), Source.Expression(SMASH);
    var s12 := Source.Compound(s1, s2);
    assert StmtNames(s1) == Both(NOTHING, ExprNames(SET));
    assert StmtNames(s12) == Both(StmtNames(s1), ExprNames(SMASH));
    assert StmtNames(BODY) == Both(StmtNames(s12), ExprNames(Source.Literal(0)));
    assert ExprNames(Source.Literal(0)) == NOTHING by { NamesOfZero(); }
    NothingBeside(NOTHING, ExprNames(SET));
    NothingBeside(StmtNames(s12), NOTHING);
    assert StmtLabels(s1) == 0 && StmtLabels(s12) == 0;
  }

  lemma NamesOfZero()
    ensures ExprNames(Source.Literal(0)) == NOTHING
  {
  }

  /** The source run is undefined, however far it is followed: the second store is to no variable. */
  lemma SourceUndefined(p: Source.Program, st: Source.Store, fuel: nat)
    requires "p" in p.variables && VICTIM !in st
    ensures Source.Exec(p, BODY, st, fuel, FULL_ROOM).Undefined?
  {
    var a := p.variables["p"];
    var inner := FULL_ROOM.(spills := FULL_ROOM.spills - 1);
    var s1, s2 := Source.Compound(Source.Empty, Source.Expression(SET)), Source.Expression(SMASH);
    assert Source.Eval(p, SET.rhs, st, fuel, inner) == Some(Source.Done(Some(VICTIM), st));
    if a in st {
      var st1 := st[a := VICTIM];
      assert Source.Eval(p, SET, st, fuel, FULL_ROOM) == Some(Source.Done(Some(VICTIM), st1));
      assert Source.Exec(p, Source.Expression(SET), st, fuel, FULL_ROOM) == Source.Normal(st1);
      assert Source.Exec(p, s1, st, fuel, FULL_ROOM) == Source.Normal(st1);
      assert Source.Locate(p, SMASH.lhs.rhs, st1) == Some(a);
      assert Source.Locate(p, SMASH.lhs, st1) == Some(VICTIM);
      assert Source.Eval(p, SMASH.rhs, st1, fuel, inner) == Some(Source.Done(Some(LUI_ZERO), st1));
      assert Source.Eval(p, SMASH, st1, fuel, FULL_ROOM) == None;
      assert Source.Exec(p, Source.Compound(s1, s2), st, fuel, FULL_ROOM) == Source.Undefined;
    } else {
      assert Source.Eval(p, SET, st, fuel, FULL_ROOM) == None;
      assert Source.Exec(p, Source.Expression(SET), st, fuel, FULL_ROOM) == Source.Undefined;
      assert Source.Exec(p, s1, st, fuel, FULL_ROOM) == Source.Undefined;
      assert Source.Exec(p, Source.Compound(s1, s2), st, fuel, FULL_ROOM) == Source.Undefined;
    }
  }

  // ----- its run -----

  /** The lines of the body: two assignments, then `return`. */
  lemma CodeOfBody(uid: nat)
    ensures GenStmt(BODY, uid, true).lines == Rvalue(SET) + (Rvalue(SMASH) + (Rvalue(Source.Literal(0)) + Leave(true)))
    ensures Rvalue(SET) == (Declare("p", Source.U32) + [La(T0, "p")]) + (PUSH + ([Li(T0, VICTIM)] + (POP + STORE)))
    ensures Rvalue(SMASH) == ([La(T0, "p")] + LOAD) + (PUSH + ([Li(T0, LUI_ZERO)] + (POP + STORE)))
  {
    hide Declare, Leave;
    var s1, s2 := Source.Compound(Source.Empty, Source.Expression(SET)), Source.Expression(SMASH);
    assert GenStmt(s1, uid, true) == StmtCode([] + Rvalue(SET), uid);
    assert GenStmt(Source.Compound(s1, s2), uid, true) == StmtCode(([] + Rvalue(SET)) + Rvalue(SMASH), uid);
    assert GenExpr(SMASH.lhs, true) == ExprCode([La(T0, "p")] + LOAD, true);
    assert GenExpr(SET.lhs, true) == ExprCode(Declare("p", Source.U32) + [La(T0, "p")], true);
    assert GenExpr(SET.rhs, false) == ExprCode([Li(T0, VICTIM)], false);
    assert GenExpr(SMASH.rhs, false) == ExprCode([Li(T0, LUI_ZERO)], false);
  }

  // ----- how long its code is -----

  ghost predicate Takes(lines: seq<Line>, n: nat) {
    forall c: Cursor | c.segment.TextSegment? ::
      End(lines, c).segment.TextSegment? && End(lines, c).text == c.text + n
  }

  lemma {:induction false} TakesAppend(a: seq<Line>, b: seq<Line>, m: nat, n: nat)
    requires Takes(a, m) && Takes(b, n)
    ensures Takes(a + b, m + n)
  {
    hide End, Takes;
    var lines := a + b;
    forall c: Cursor | c.segment.TextSegment?
      ensures End(lines, c).segment.TextSegment? && End(lines, c).text == c.text + (m + n)
    {
      EndAppend(a, b, c);
      Shift(a, m, c);
      Shift(b, n, End(a, c));
    }
    TakesAlways(lines, m + n);
  }

  lemma {:induction false} TakesAlways(lines: seq<Line>, n: nat)
    requires forall c: Cursor | c.segment.TextSegment? ::
      End(lines, c).segment.TextSegment? && End(lines, c).text == c.text + n
    ensures Takes(lines, n)
  {
    hide End;
  }

  lemma TakesOne(line: Line, n: nat)
    requires forall c: Cursor | c.segment.TextSegment? :: Next(line, c) == c.(text := c.text + n)
    ensures Takes([line], n)
  {
    hide Next, End;
    forall c: Cursor | c.segment.TextSegment?
      ensures End([line], c).segment.TextSegment? && End([line], c).text == c.text + n
    {
      EndOne(line, c);
    }
  }

  lemma TakesSingle(line: Line)
    requires Single(line)
    ensures Takes([line], 4)
  {
    hide Next;
    forall c: Cursor | c.segment.TextSegment? ensures Next(line, c) == c.(text := c.text + 4) {
      NextOfSingle(line, c);
    }
    TakesOne(line, 4);
  }

  lemma TakesLoads(x: string, l: int)
    ensures Takes([La(T0, x)], 8) && Takes([Li(T0, l)], if Upper(Wrap(l)) != 0 then 8 else 4)
  {
    hide Next, LineCode;
    var n := if Upper(Wrap(l)) != 0 then 8 else 4;
    forall c: Cursor | c.segment.TextSegment?
      ensures Next(La(T0, x), c) == c.(text := c.text + 8) && Next(Li(T0, l), c) == c.(text := c.text + n)
    {
      CodeOfLa(T0, x, c, map[]);
      CodeOfLi(T0, l, c, map[]);
    }
    TakesOne(La(T0, x), 8);
    TakesOne(Li(T0, l), n);
  }

  lemma TakesDeclare(x: string, kind: Source.Type)
    ensures Takes(Declare(x, kind), 0)
  {
    hide End, Declare;
    var lines := Declare(x, kind);
    forall c: Cursor | c.segment.TextSegment? ensures End(lines, c).segment.TextSegment? && End(lines, c).text == c.text {
      EndOfDeclare(x, kind, c);
    }
  }

  lemma TakesStack()
    ensures Takes(PUSH, 8) && Takes(POP + STORE, 12) && Takes(LOAD, 4) && Takes(STORE, 4)
  {
    hide Takes;
    TakesSingle(PUSH[0]);
    TakesSingle(PUSH[1]);
    TakesSingle(POP[0]);
    TakesSingle(POP[1]);
    TakesSingle(LOAD[0]);
    TakesSingle(STORE[0]);
    TakesAppend([PUSH[0]], [PUSH[1]], 4, 4);
    TakesAppend([POP[1]], STORE, 4, 4);
    TakesAppend([POP[0]], [POP[1]] + STORE, 4, 8);
    assert PUSH == [PUSH[0]] + [PUSH[1]] && POP + STORE == [POP[0]] + ([POP[1]] + STORE);
    assert LOAD == [LOAD[0]] && STORE == [STORE[0]];
  }

  /** The first assignment takes 32 bytes; the second takes 12 for the address. */
  lemma TakesAssignments()
    ensures Takes(Rvalue(SET), 32) && Takes([La(T0, "p")] + LOAD, 12) && Takes([Li(T0, LUI_ZERO)], 8)
  {
    hide Takes, Declare;
    CodeOfBody(0);
    TakesStack();
    TakesLoads("p", VICTIM);
    TakesLoads("p", LUI_ZERO);
    assert Upper(VICTIM) == 0 && Upper(LUI_ZERO) != 0;
    TakesDeclare("p", Source.U32);
    TakesAppend(Declare("p", Source.U32), [La(T0, "p")], 0, 8);
    TakesAppend([Li(T0, VICTIM)], POP + STORE, 4, 12);
    TakesAppend(PUSH, [Li(T0, VICTIM)] + (POP + STORE), 8, 16);
    TakesAppend(Declare("p", Source.U32) + [La(T0, "p")], PUSH + ([Li(T0, VICTIM)] + (POP + STORE)), 8, 24);
    TakesAppend([La(T0, "p")], LOAD, 8, 4);
  }

  // ----- the run -----

  lemma {:induction false} RunSet(w: World, c: Cursor, st: Source.Store, s: State) returns (t: State)
    requires WorldLinked(w) && Inside(w, c) && Linked(w, Rvalue(SET), c) && Ready(w, s, st, FULL_ROOM, c)
    requires "p" in w.program.variables && w.program.variables["p"] in st
    ensures Landed(w, s, t, st[w.program.variables["p"] := VICTIM], FULL_ROOM, End(Rvalue(SET), c))
  {
    hide WorldLinked, Linked, Ready, Landed, GenExpr;
    var inner := FULL_ROOM.(spills := FULL_ROOM.spills - 1);
    assert Source.Eval(w.program, SET.rhs, st, 0, inner) == Some(Source.Done(Some(VICTIM), st));
    t := RunExpr(w, SET, c, st, 0, FULL_ROOM, s);
  }

  /** The second assignment, up to and with its store: the program counter is at the word just written. */
  lemma {:induction false} RunSmash(w: World, c: Cursor, st: Source.Store, s: State) returns (t: State)
    requires WorldLinked(w) && Inside(w, c) && c.text == 36 && Ready(w, s, st, FULL_ROOM, c)
    requires Linked(w, ([La(T0, "p")] + LOAD) + (PUSH + ([Li(T0, LUI_ZERO)] + (POP + STORE))), c)
    requires "p" in w.program.variables && w.program.variables["p"] in st && st[w.program.variables["p"]] == VICTIM
    requires 4 * |w.code| >= VICTIM + 4
    ensures Reaches(w, s, t) && t.pc == VICTIM && !t.fault && !t.shouldExit && t.mem.textLength == 4 * |w.code|
    ensures ReadWord(t.mem, VICTIM) == Some(LUI_ZERO)
  {
    hide Loaded, Reaches, ReadWord, WriteWord, Linked, Fragment, WorldLinked, Kept, VariablesHeld, Separated, End, Takes,
      GenExpr, Next, Emissions;
    var left, right := [La(T0, "p")] + LOAD, [Li(T0, LUI_ZERO)];
    CodeOfSmash();
    FragmentExpr(SMASH.lhs, true);
    FragmentExpr(SMASH.rhs, false);
    var c1, c2, c3 := CutOperator(w, left, right, STORE, c);
    TakesAssignments();
    TakesStack();
    Shift(left, 12, c);
    Shift(PUSH, 8, c1);
    Shift(right, 8, c2);
    var m1 := RunAddress(w, SMASH.lhs, c, st, FULL_ROOM, s);
    var m2 := RunPush(w, c1, st, FULL_ROOM, m1);
    var inner := FULL_ROOM.(spills := FULL_ROOM.spills - 1);
    var m3 := RunExpr(w, SMASH.rhs, c2, st, 0, inner, m2);
    KeptSpill(m2.mem, m3.mem, inner, SpillPointer(FULL_ROOM));
    var m4, c4 := RunPop(w, STORE, c3, st, FULL_ROOM, m3);
    StoreInText(w.code, m4.mem);
    t := RunStore(w, STORE, c4, m4, T0, T1);
    ReachesTrans(w, s, m1, m2);
    ReachesTrans(w, s, m2, m3);
    ReachesTrans(w, s, m3, m4);
    ReachesTrans(w, s, m4, t);
  }

  lemma CodeOfSmash()
    ensures GenExpr(SMASH.lhs, true).lines == [La(T0, "p")] + LOAD && Rvalue(SMASH.rhs) == [Li(T0, LUI_ZERO)]
  {
    assert GenExpr(SMASH.lhs, true) == ExprCode([La(T0, "p")] + LOAD, true);
  }

  lemma Shift(lines: seq<Line>, n: nat, c: Cursor)
    requires Takes(lines, n) && c.segment.TextSegment?
    ensures End(lines, c).text == c.text + n && End(lines, c).segment.TextSegment?
  {
    hide End;
  }

  /** Nothing keeps a store out of the text. */
  lemma StoreInText(code: seq<Instr>, m: Memory)
    requires Loaded(code, m) && 4 * |code| >= VICTIM + 4
    ensures WriteWord(m, VICTIM, LUI_ZERO).Some?
    ensures var m' := WriteWord(m, VICTIM, LUI_ZERO).value;
      m'.textLength == 4 * |code| && ReadWord(m', VICTIM) == Some(LUI_ZERO)
  {
    hide Decode;
    WriteThenRead(m, VICTIM, LUI_ZERO, VICTIM);
  }

  lemma StepLui(s: State)
    requires ReadWord(s.mem, s.pc) == Some(LUI_ZERO) && !s.fault && !s.shouldExit && s.pc < s.mem.textLength
    ensures Tick(s).regs[ZERO] == 0x1_0000
  {
    hide ReadWord, Decode;
    DecodesToLui();
  }

  /** From the entry function's first instruction to a state where `$zero` is not zero. */
  lemma {:induction false} RunBody(w: World, uid: nat, c: Cursor, s: State) returns (t: State)
    requires WorldLinked(w) && Inside(w, c) && c.text == 0
    requires Linked(w, GenFunction(Source.ENTRY, BODY, uid).lines, c)
    requires Ready(w, s, InitialStore(w.program), FULL_ROOM, c)
    requires "p" in w.program.variables
    ensures Arrives(s, t) && t.regs[ZERO] != 0
  {
    hide Loaded, Reaches, ReadWord, Linked, Fragment, WorldLinked, End, Takes, GenExpr, GenStmt, Next, Emissions, Step,
      VariablesHeld, Separated;
    var smash := ([La(T0, "p")] + LOAD) + (PUSH + ([Li(T0, LUI_ZERO)] + (POP + STORE)));
    var last := Rvalue(Source.Literal(0));
    var rest := last + Leave(true) + [Ret];
    CodeOfBody(uid);
    var all := GenStmt(BODY, uid, true).lines + [Ret];
    assert all == Rvalue(SET) + (smash + rest);
    LabelHere(w, Source.ENTRY, [Copy(FP, SP)] + all, c);
    PlainMoves(FP, SP);
    FragmentPlain([Copy(FP, SP)]);
    FragmentExpr(SET, false);
    FragmentExpr(SMASH, false);
    FragmentExpr(Source.Literal(0), false);
    var c1 := Cut(w, [Copy(FP, SP)], all, c);
    var c2 := Cut(w, Rvalue(SET), smash + rest, c1);
    var c3 := Cut(w, smash, rest, c2);
    assert rest == last + (Leave(true) + [Ret]);
    var c4 := Cut(w, last, Leave(true) + [Ret], c3);
    Places(c, c1, c2, c3, c4);
    var m := RunCopy(w, [Copy(FP, SP)] + all, c, s, FP, SP);
    var st := InitialStore(w.program);
    var m1 := RunSet(w, c1, st, m);
    var u := RunSmash(w, c2, st[w.program.variables["p"] := VICTIM], m1);
    ReachesTrans(w, s, m, m1);
    ReachesTrans(w, s, m1, u);
    ReachesArrives(w, s, u);
    StepLui(u);
    t := Tick(u);
    assert Arrives(u, t) by { assert RunFor(t, 0) == t && RunFor(u, 1) == t; }
    ArrivesTrans(s, u, t);
  }

  lemma Places(c: Cursor, c1: Cursor, c2: Cursor, c3: Cursor, c4: Cursor)
    requires c.segment.TextSegment? && c.text == 0 && c1 == End([Copy(FP, SP)], c) && c2 == End(Rvalue(SET), c1)
    requires c3 == End(Rvalue(SMASH), c2) && c4 == End(Rvalue(Source.Literal(0)), c3)
    ensures c1 == c.(text := 4) && c2.text == 36 && c3.text == 76 && c4.text == 80
  {
    hide Takes, End, Rvalue, SET, SMASH;
    CopyPlace(c);
    TakesAll();
    Behind(Rvalue(SET), 32, c1, Rvalue(SMASH), 40, c2, Rvalue(Source.Literal(0)), 4, c3);
  }

  lemma {:induction false} Behind(l1: seq<Line>, n1: nat, c1: Cursor, l2: seq<Line>, n2: nat, c2: Cursor, l3: seq<Line>,
                                  n3: nat, c3: Cursor)
    requires Takes(l1, n1) && Takes(l2, n2) && Takes(l3, n3)
    requires c1.segment.TextSegment? && c2 == End(l1, c1) && c3 == End(l2, c2)
    ensures c2.text == c1.text + n1 && c3.text == c1.text + n1 + n2 && End(l3, c3).text == c1.text + n1 + n2 + n3
  {
    hide Takes, End;
    Shift(l1, n1, c1);
    Shift(l2, n2, c2);
    Shift(l3, n3, c3);
  }

  lemma CopyPlace(c: Cursor)
    requires c.segment.TextSegment?
    ensures End([Copy(FP, SP)], c) == c.(text := c.text + 4)
  {
    hide End, Next;
    NextOfSingle(Copy(FP, SP), c);
    EndOne(Copy(FP, SP), c);
  }

  lemma TakesAll()
    ensures Takes(Rvalue(SET), 32) && Takes(Rvalue(SMASH), 40) && Takes(Rvalue(Source.Literal(0)), 4)
  {
    hide Takes;
    CodeOfBody(0);
    TakesAssignments();
    TakesStack();
    TakesAppend([Li(T0, LUI_ZERO)], POP + STORE, 8, 12);
    TakesAppend(PUSH, [Li(T0, LUI_ZERO)] + (POP + STORE), 8, 20);
    TakesAppend([La(T0, "p")] + LOAD, PUSH + ([Li(T0, LUI_ZERO)] + (POP + STORE)), 12, 28);
    TakesLoads("p", 0);
    assert Rvalue(Source.Literal(0)) == [Li(T0, 0)];
  }

  lemma Declared()
    ensures "p" in DeclaredInProgram(PROGRAM)
  {
    assert DeclaredInExpr(SET) == DeclaredInExpr(SET.lhs) + DeclaredInExpr(SET.rhs);
    assert DeclaredInStmt(BODY.first.first) == DeclaredInStmt(Source.Empty) + DeclaredInExpr(SET);
    assert DeclaredInStmt(BODY.first) == DeclaredInStmt(BODY.first.first) + DeclaredInExpr(SMASH);
    assert DeclaredInStmt(BODY) == DeclaredInStmt(BODY.first) + {};
  }

  /** The toolchain accepts the program, and every run of it comes to a state where `$zero` is not zero. */
  lemma {:induction false} ZeroIsLost(g: Segments, g': Segments, stack: seq<Byte>, global: seq<Byte>, hi: Word,
                                      lo: Word)
    returns (n: nat)
    requires Installed(PROGRAM, 0, g, g', stack, global)
    ensures WellNamed(PROGRAM, 0) && |FileOf(g')| >= HEADER_SIZE
    ensures RunFor(StartState(g', stack, global, hi, lo), n).regs[ZERO] != 0
  {
    hide Linked, WorldLinked, Ready, GenFunction, WellNamed, FileOf, StartState, RunFor, InitialStore;
    Accepted();
    Declared();
    var w, uid, c := ProgramStarts(PROGRAM, 0, g, g', stack, global, hi, lo);
    var t := RunBody(w, uid, c, StartState(g', stack, global, hi, lo));
    n :| RunFor(StartState(g', stack, global, hi, lo), n) == t;
  }
}

/** Source runs that never end: the machine never stops, and nothing goes wrong in it. */
module EndlessRuns {
  import opened Words
  import opened Isa
  import opened Names
  import opened Machine
  import opened Assembly
  import opened Execution
  import opened Frames
  import opened Fragments
  import opened CodeGeneration
  import opened Correctness
  import opened Builder
  import opened Linking
  import opened EndToEnd
  import Source

  // ----- staying alive for a number of steps -----

  /** Every state of so many steps is live, with `$zero` zero and the text as loaded. */
  ghost predicate Survives(w: World, s: State, n: nat) {
    forall k: nat | k <= n :: Sane(w, RunFor(s, k))
  }

  lemma SurvivesNow(w: World, s: State)
    requires Sane(w, s)
    ensures Survives(w, s, 0)
  {
    hide Sane;
  }

  lemma SurvivesLess(w: World, s: State, m: nat, n: nat)
    requires m <= n && Survives(w, s, n)
    ensures Survives(w, s, m)
  {
    hide Sane, RunFor;
  }

  /** From `s` to `t`, and on from there: what `t` survives, `s` does. */
  lemma SurvivesAfter(w: World, s: State, t: State, n: nat)
    requires Reaches(w, s, t) && Survives(w, t, n)
    ensures Survives(w, s, n)
  {
    hide Sane, RunFor;
    var m: nat :| ReachesIn(w, s, t, m);
    SurvivesIn(w, s, t, m, n);
    SurvivesLess(w, s, n, m + n);
  }

  /** And a step more, if they differ. */
  lemma SurvivesMore(w: World, s: State, t: State, n: nat)
    requires Reaches(w, s, t) && s != t && Survives(w, t, n)
    ensures Survives(w, s, n + 1)
  {
    hide Sane;
    var m: nat :| ReachesIn(w, s, t, m);
    assert m != 0;
    SurvivesIn(w, s, t, m, n);
    SurvivesLess(w, s, n + 1, m + n);
  }

  lemma SurvivesIn(w: World, s: State, t: State, m: nat, n: nat)
    requires ReachesIn(w, s, t, m) && Survives(w, t, n)
    ensures Survives(w, s, m + n)
  {
    hide Sane, RunFor;
    forall k: nat | k <= m + n ensures Sane(w, RunFor(s, k)) {
      if k >= m {
        RunForSum(s, m, k - m);
        assert Sane(w, RunFor(t, k - m));
      }
    }
  }

  lemma SurvivesTick(w: World, s: State, n: nat)
    requires Sane(w, s) && Survives(w, Tick(s), n)
    ensures Survives(w, s, n + 1)
  {
    hide Sane, Tick;
    assert RunFor(s, 0) == s && RunFor(s, 1) == RunFor(Tick(s), 0) == Tick(s);
    assert ReachesIn(w, s, Tick(s), 1);
    SurvivesIn(w, s, Tick(s), 1, n);
    SurvivesLess(w, s, n + 1, 1 + n);
  }

  // ----- a jump is a step -----

  lemma {:induction false} StepIsTick(w: World, location: nat, i: Instr, s: State)
    requires CodeAt(w.code, location, [i]) && Sane(w, s) && s.pc == location
    ensures Tick(s) == Execute(i, s)
  {
    hide Execute, Decode, ReadWord;
    assert 4 * (location / 4) == location;
    assert w.code[location / 4 + 0] == [i][0];
  }

  lemma {:induction false} BranchIsTick(w: World, line: Line, c: Cursor, s: State, target: string, taken: bool)
    requires Linked(w, [line], c) && AtCursor(w, s, c)
    requires || (line == Branch2(BNE, T0, ZERO, target) && taken == (s.regs[T0] != 0))
             || (line == Beqz(T0, target) && taken == (s.regs[T0] == 0))
             || (line == B(target) && taken)
    requires target in w.env && w.env[target] < BRANCH_RANGE
    ensures Tick(s) == s.(pc := if taken then w.env[target] else c.text + 4) && c.text + 4 < BRANCH_RANGE
  {
    hide Emissions, Expand, Listing, LineCode, Next, Linked, Loaded, Decode, ReadWord, WriteWord, Execute, Distance, Tick;
    var d := Distance(w.env[target], c.text);
    CodeOfBranch2(BNE, T0, ZERO, target, c, w.env);
    CodeOfBeqz(T0, target, c, w.env);
    CodeOfB(target, c, w.env);
    var op, x := if line.Branch2? then BNE else BEQ, if line.B? then ZERO else T0;
    LoadedRange(w, s);
    FirstLinked(w, line, c);
    StepIsTick(w, c.text, InsRRA(op, x, ZERO, d), s);
    RangeOfLine(w, line, c);
    ExecuteBranch(s, op, x, ZERO, w.env[target]);
  }

  lemma FirstLinked(w: World, line: Line, c: Cursor)
    requires Linked(w, [line], c)
    ensures LineLinked(w, line, c)
  {
    hide LineLinked;
  }

  lemma {:induction false} RangeOfLine(w: World, line: Line, c: Cursor)
    requires LineLinked(w, line, c) && c.segment.TextSegment? && !line.Label? && |LineCode(line, c, w.env)| == 1
    requires 4 * |w.code| < BRANCH_RANGE
    ensures c.text + 4 < BRANCH_RANGE
  {
    hide LineCode, Emissions;
  }

  /** A jump from one ready cursor to another is one step. */
  lemma {:induction false} BranchOnce(w: World, line: Line, c: Cursor, st: Source.Store, room: Source.Room, s: State,
                                          target: string, taken: bool, c': Cursor) returns (t: State)
    requires Linked(w, [line], c) && Ready(w, s, st, room, c)
    requires || (line == Branch2(BNE, T0, ZERO, target) && taken == (s.regs[T0] != 0))
             || (line == Beqz(T0, target) && taken == (s.regs[T0] == 0))
             || (line == B(target) && taken)
    requires target in w.env && w.env[target] < BRANCH_RANGE && c'.segment.TextSegment?
    requires c'.text == if taken then w.env[target] else End([line], c).text
    ensures Landed(w, s, t, st, room, c') && t == Tick(s)
  {
    hide Loaded, Reaches, ReadWord, Linked, Emissions, Next, Tick, Survives;
    t := RunBranch(w, [line], c, s, T0, target, taken);
    NextOfSingle(line, c);
    EndOne(line, c);
    LandedRegister(w, s, t, st, room, c, c');
    BranchIsTick(w, line, c, s, target, taken);
  }

  // ----- expressions -----

  /** If the source evaluation runs out of fuel, the machine takes at least as many steps as there was fuel,
      and is live in all of them. */
  lemma {:induction false} SurviveExpr(w: World, e: Source.Expr, c: Cursor, st: Source.Store, fuel: nat,
                                       room: Source.Room, s: State)
    requires WorldLinked(w) && Inside(w, c) && Linked(w, Rvalue(e), c) && Ready(w, s, st, room, c)
    requires Source.Starves(w.program, e, st, fuel, room)
    ensures Survives(w, s, fuel)
    decreases fuel, e, 1
  {
    hide Plain, Loaded, Reaches, ReadWord, Linked, Emissions, Next, Fragment, Declare, WorldLinked, Survives, End;
    match e
    case Indirection(r) =>
      FragmentExpr(r, false);
      var c1 := Cut(w, Rvalue(r), LOAD, c);
      SurviveExpr(w, r, c, st, fuel, room, s);
    case Comma(first, second) =>
      LvalAfter(first, false);
      FragmentExpr(first, false);
      var c1 := Cut(w, Rvalue(first), Rvalue(second), c);
      if Source.Starves(w.program, first, st, fuel, room) {
        SurviveExpr(w, first, c, st, fuel, room, s);
      } else {
        var m := RunExpr(w, first, c, st, fuel, room, s);
        var st1 := Source.Eval(w.program, first, st, fuel, room).value.store;
        SurviveExpr(w, second, c1, st1, fuel, room, m);
        SurvivesAfter(w, s, m, fuel);
      }
    case Binary(_, _, _) => SurviveBinary(w, e, c, st, fuel, room, s);
    case Assignment(_, _) => SurviveAssignment(w, e, c, st, fuel, room, s);
    case FunctionCall(_) => SurviveCall(w, e, c, st, fuel, room, s);
  }

  lemma {:induction false} SurviveBinary(w: World, e: Source.Expr, c: Cursor, st: Source.Store, fuel: nat,
                                         room: Source.Room, s: State)
    requires e.Binary?
    requires WorldLinked(w) && Inside(w, c) && Linked(w, Rvalue(e), c) && Ready(w, s, st, room, c)
    requires Source.Starves(w.program, e, st, fuel, room)
    ensures Survives(w, s, fuel)
    decreases fuel, e, 0
  {
    hide Loaded, Reaches, ReadWord, Linked, Emissions, Next, Fragment, WorldLinked, Operate, Kept, VariablesHeld,
      Separated, End, Survives;
    var lhs, rhs, last := e.lhs, e.rhs, Operate(e.op);
    LvalAfter(lhs, false);
    FragmentExpr(lhs, false);
    FragmentExpr(rhs, false);
    var c1, c2, c3 := CutOperator(w, Rvalue(lhs), Rvalue(rhs), last, c);
    if Source.Starves(w.program, lhs, st, fuel, room) {
      SurviveExpr(w, lhs, c, st, fuel, room, s);
    } else {
      var m1 := RunExpr(w, lhs, c, st, fuel, room, s);
      var st1 := Source.Eval(w.program, lhs, st, fuel, room).value.store;
      SurviveRight(w, rhs, c1, st1, fuel, room, m1);
      SurvivesAfter(w, s, m1, fuel);
    }
  }

  /** The right operand, behind the push. */
  lemma {:induction false} SurviveRight(w: World, rhs: Source.Expr, c: Cursor, st: Source.Store, fuel: nat,
                                        room: Source.Room, s: State)
    requires WorldLinked(w) && Linked(w, PUSH, c) && room.spills > 0 && Ready(w, s, st, room, c)
    requires Inside(w, End(PUSH, c)) && Linked(w, Rvalue(rhs), End(PUSH, c))
    requires Source.Starves(w.program, rhs, st, fuel, room.(spills := room.spills - 1))
    ensures Survives(w, s, fuel)
    decreases fuel, rhs, 2
  {
    hide Loaded, Reaches, ReadWord, Linked, Emissions, Next, WorldLinked, Kept, VariablesHeld, Separated, End, Survives;
    var m := RunPush(w, c, st, room, s);
    SurviveExpr(w, rhs, End(PUSH, c), st, fuel, room.(spills := room.spills - 1), m);
    SurvivesAfter(w, s, m, fuel);
  }

  lemma {:induction false} SurviveAssignment(w: World, e: Source.Expr, c: Cursor, st: Source.Store, fuel: nat,
                                             room: Source.Room, s: State)
    requires e.Assignment?
    requires WorldLinked(w) && Inside(w, c) && Linked(w, Rvalue(e), c) && Ready(w, s, st, room, c)
    requires Source.Starves(w.program, e, st, fuel, room)
    ensures Survives(w, s, fuel)
    decreases fuel, e, 0
  {
    hide Loaded, Reaches, ReadWord, WriteWord, Linked, Emissions, Next, Fragment, WorldLinked, Kept, VariablesHeld,
      Separated, End, Survives;
    FragmentExpr(e.lhs, true);
    FragmentExpr(e.rhs, false);
    var c1, c2, c3 := CutOperator(w, GenExpr(e.lhs, true).lines, Rvalue(e.rhs), STORE, c);
    var m1 := RunAddress(w, e.lhs, c, st, room, s);
    SurviveRight(w, e.rhs, c1, st, fuel, room, m1);
    SurvivesAfter(w, s, m1, fuel);
  }

  /** A call is at least one step, and what is left of the fuel is for the callee's body. */
  lemma {:induction false} SurviveCall(w: World, e: Source.Expr, c: Cursor, st: Source.Store, fuel: nat,
                                       room: Source.Room, s: State)
    requires e.FunctionCall?
    requires WorldLinked(w) && Inside(w, c) && Linked(w, Rvalue(e), c) && Ready(w, s, st, room, c)
    requires Source.Starves(w.program, e, st, fuel, room)
    ensures Survives(w, s, fuel)
    decreases fuel, e, 0
  {
    hide Loaded, Reaches, ReadWord, Linked, Emissions, Next, Fragment, WorldLinked, Kept, VariablesHeld, Separated,
      GenStmt, GenFunction, End, Survives;
    if fuel == 0 {
      SurvivesNow(w, s);
    } else {
      var f, inner := e.name, room.(frames := room.frames - 1);
      var c1, c2 := FunctionPlaces(w, f);
      var m := CallFunction(w, f, c, c1, st, room, s);
      SurviveStmt(w, w.program.functions[f], w.home[f].uid, false, c1, st, fuel - 1, inner, m);
      assert s.regs[SP] != m.regs[SP];
      SurvivesMore(w, s, m, fuel - 1);
    }
  }

  lemma {:induction false} SurviveOptional(w: World, e: Option<Source.Expr>, c: Cursor, st: Source.Store, fuel: nat,
                                           room: Source.Room, s: State)
    requires WorldLinked(w) && Inside(w, c) && Linked(w, RvalueOptional(e), c) && Ready(w, s, st, room, c)
    requires Source.StarvesOptional(w.program, e, st, fuel, room)
    ensures Survives(w, s, fuel)
    decreases fuel, e, 2
  {
    hide Loaded, Reaches, ReadWord, Linked, Survives;
    SurviveExpr(w, e.value, c, st, fuel, room, s);
  }

  // ----- statements -----

  lemma {:induction false} SurviveStmt(w: World, s: Source.Stmt, uid: nat, entry: bool, c: Cursor, st: Source.Store,
                                       fuel: nat, room: Source.Room, m: State)
    requires WorldLinked(w) && Inside(w, c) && Linked(w, GenStmt(s, uid, entry).lines, c) && Ready(w, m, st, room, c)
    requires !entry ==> room.frames < STACK_FRAMES && m.regs[FP] == m.regs[SP]
    requires Source.StarvesIn(w.program, s, st, fuel, room)
    ensures Survives(w, m, fuel)
    decreases fuel, s, 3
  {
    hide Loaded, Reaches, ReadWord, Linked, Emissions, Next, Fragment, WorldLinked, GenExpr, Survives, End;
    match s
    case Expression(e) => SurviveExpr(w, e, c, st, fuel, room, m);
    case Return(e) =>
      FragmentExpr(e, false);
      var c1 := Cut(w, Rvalue(e), Leave(entry), c);
      SurviveExpr(w, e, c, st, fuel, room, m);
    case Compound(first, second) =>
      var g1 := GenStmt(first, uid, entry);
      FragmentStmt(first, uid, entry);
      var c1 := Cut(w, g1.lines, GenStmt(second, g1.uid, entry).lines, c);
      if Source.StarvesIn(w.program, first, st, fuel, room) {
        SurviveStmt(w, first, uid, entry, c, st, fuel, room, m);
      } else {
        var m1 := RunStmt(w, first, uid, entry, c, st, fuel, room, m);
        var st1 := Source.Exec(w.program, first, st, fuel, room).store;
        SurviveStmt(w, second, g1.uid, entry, c1, st1, fuel, room, m1);
        SurvivesAfter(w, m, m1, fuel);
      }
    case IfThen(_, _) => SurviveIfThen(w, s, uid, entry, c, st, fuel, room, m);
    case IfThenElse(_, _, _) => SurviveIfThenElse(w, s, uid, entry, c, st, fuel, room, m);
    case While(_, _) => SurviveWhile(w, s, uid, entry, c, st, fuel, room, m);
    case For(_, _, _, _) => SurviveForLoop(w, s, uid, entry, c, st, fuel, room, m);
  }

  lemma {:induction false} SurviveIfThen(w: World, s: Source.Stmt, uid: nat, entry: bool, c: Cursor, st: Source.Store,
                                         fuel: nat, room: Source.Room, m: State)
    requires s.IfThen?
    requires WorldLinked(w) && Inside(w, c) && Linked(w, GenStmt(s, uid, entry).lines, c) && Ready(w, m, st, room, c)
    requires !entry ==> room.frames < STACK_FRAMES && m.regs[FP] == m.regs[SP]
    requires Source.StarvesIn(w.program, s, st, fuel, room)
    ensures Survives(w, m, fuel)
    decreases fuel, s, 2
  {
    hide Plain, Loaded, Reaches, ReadWord, Linked, Emissions, Next, Fragment, WorldLinked, GenExpr, UidLabel, Survives;
    var last := [Label(UidLabel(uid))];
    var body := GenStmt(s.trueBody, uid + 1, entry).lines;
    var jump := Beqz(T0, UidLabel(uid));
    FragmentExpr(s.condition, false);
    FragmentStmt(s.trueBody, uid + 1, entry);
    PlainLines(UidLabel(uid));
    FragmentPlain([jump]);
    var c1 := Cut(w, Rvalue(s.condition), [jump] + (body + last), c);
    if Source.Starves(w.program, s.condition, st, fuel, room) {
      SurviveExpr(w, s.condition, c, st, fuel, room, m);
    } else {
      var c2 := Cut(w, [jump], body + last, c1);
      var c3 := Cut(w, body, last, c2);
      assert last == [Label(UidLabel(uid))] + [];
      LabelHere(w, UidLabel(uid), [], c3);
      LoadedRange(w, m);
      var m1 := RunExpr(w, s.condition, c, st, fuel, room, m);
      var st1 := Source.Eval(w.program, s.condition, st, fuel, room).value.store;
      var m2 := Branch(w, jump, c1, st1, room, m1, UidLabel(uid), false, c2);
      SurviveStmt(w, s.trueBody, uid + 1, entry, c2, st1, fuel, room, m2);
      SurvivesAfter(w, m1, m2, fuel);
      SurvivesAfter(w, m, m1, fuel);
    }
  }

  lemma {:induction false} SurviveIfThenElse(w: World, s: Source.Stmt, uid: nat, entry: bool, c: Cursor,
                                             st: Source.Store, fuel: nat, room: Source.Room, m: State)
    requires s.IfThenElse?
    requires WorldLinked(w) && Inside(w, c) && Linked(w, GenStmt(s, uid, entry).lines, c) && Ready(w, m, st, room, c)
    requires !entry ==> room.frames < STACK_FRAMES && m.regs[FP] == m.regs[SP]
    requires Source.StarvesIn(w.program, s, st, fuel, room)
    ensures Survives(w, m, fuel)
    decreases fuel, s, 2
  {
    hide Loaded, Reaches, ReadWord, Linked, Emissions, Next, Fragment, WorldLinked, GenExpr, GenStmt, UidLabel, End,
      Survives;
    var c1, c2, c3, c4, c5 := CutIfThenElse(w, s, uid, entry, c);
    if Source.Starves(w.program, s.condition, st, fuel, room) {
      SurviveExpr(w, s.condition, c, st, fuel, room, m);
    } else {
      var g1, jump := GenStmt(s.trueBody, uid + 2, entry), Beqz(T0, UidLabel(uid + 1));
      LoadedRange(w, m);
      var m1 := RunExpr(w, s.condition, c, st, fuel, room, m);
      var d := Source.Eval(w.program, s.condition, st, fuel, room).value;
      var m2;
      if d.value.value == 0 {
        m2 := Branch(w, jump, c1, d.store, room, m1, UidLabel(uid + 1), true, c4);
        SurviveStmt(w, s.falseBody, g1.uid, entry, c4, d.store, fuel, room, m2);
      } else {
        m2 := Branch(w, jump, c1, d.store, room, m1, UidLabel(uid + 1), false, c2);
        SurviveStmt(w, s.trueBody, uid + 2, entry, c2, d.store, fuel, room, m2);
      }
      SurvivesAfter(w, m1, m2, fuel);
      SurvivesAfter(w, m, m1, fuel);
    }
  }

  // ----- loops -----

  /** A turn of a loop may take no step at all, its test takes one at least. */
  function TurnSteps(fuel: nat): nat {
    if fuel == 0 then 0 else fuel - 1
  }

  lemma {:induction false} SurviveTest(w: World, s: Source.Stmt, top: nat, uid: nat, entry: bool, c: Cursor,
                                       st: Source.Store, fuel: nat, room: Source.Room, m: State)
    requires s.While? || s.For?
    requires WorldLinked(w) && Inside(w, c) && Linked(w, TailOf(s, top, uid, entry), c)
    requires Ready(w, m, st, room, TestCursor(s, uid, entry, c))
    requires !entry ==> room.frames < STACK_FRAMES && m.regs[FP] == m.regs[SP]
    requires Source.StarvesFromTest(w.program, s, st, fuel, room)
    ensures Survives(w, m, fuel)
    decreases fuel, s, 1
  {
    hide Plain, Loaded, Reaches, ReadWord, Linked, Emissions, Next, Fragment, WorldLinked, GenExpr, GenStmt, UidLabel,
      End, Survives, Tick;
    var c1, c2, c3 := CutTail(w, s, top, uid, entry, c);
    if Source.Starves(w.program, s.condition, st, fuel, room) {
      SurviveExpr(w, s.condition, c2, st, fuel, room, m);
    } else {
      var jump := Branch2(BNE, T0, ZERO, UidLabel(top));
      LoadedRange(w, m);
      var m1 := RunExpr(w, s.condition, c2, st, fuel, room, m);
      var st1 := Source.Eval(w.program, s.condition, st, fuel, room).value.store;
      var m2 := BranchOnce(w, jump, c3, st1, room, m1, UidLabel(top), true, c);
      SurviveTurn(w, s, top, uid, entry, c, st1, fuel, room, m2);
      SurvivesTick(w, m1, TurnSteps(fuel));
      SurvivesLess(w, m1, fuel, TurnSteps(fuel) + 1);
      SurvivesAfter(w, m, m1, fuel);
    }
  }

  lemma {:induction false} SurviveTurn(w: World, s: Source.Stmt, top: nat, uid: nat, entry: bool, c: Cursor,
                                       st: Source.Store, fuel: nat, room: Source.Room, m: State)
    requires s.While? || s.For?
    requires WorldLinked(w) && Inside(w, c) && Linked(w, TailOf(s, top, uid, entry), c)
    requires Ready(w, m, st, room, c)
    requires !entry ==> room.frames < STACK_FRAMES && m.regs[FP] == m.regs[SP]
    requires Source.StarvesFromBody(w.program, s, st, fuel, room)
    ensures Survives(w, m, TurnSteps(fuel))
    decreases fuel, s, 0
  {
    hide Loaded, Reaches, ReadWord, Linked, Emissions, Next, Fragment, WorldLinked, GenExpr, GenStmt, UidLabel, End,
      Survives;
    var c1, c2, c3 := CutTail(w, s, top, uid, entry, c);
    if Source.StarvesIn(w.program, s.body, st, fuel, room) {
      SurviveStmt(w, s.body, uid, entry, c, st, fuel, room, m);
      SurvivesLess(w, m, TurnSteps(fuel), fuel);
    } else {
      var m1 := RunStmt(w, s.body, uid, entry, c, st, fuel, room, m);
      var st1 := Source.Exec(w.program, s.body, st, fuel, room).store;
      if s.For? && Source.StarvesOptional(w.program, s.increment, st1, fuel, room) {
        SurviveOptional(w, s.increment, c1, st1, fuel, room, m1);
        SurvivesLess(w, m1, TurnSteps(fuel), fuel);
        SurvivesAfter(w, m, m1, TurnSteps(fuel));
      } else if fuel == 0 {
        SurvivesNow(w, m);
      } else {
        var m2, st2 := m1, st1;
        if s.For? {
          m2 := RunOptional(w, s.increment, c1, st1, fuel, room, m1);
          st2 := Source.EvalOptional(w.program, s.increment, st1, fuel, room).value;
          LandedTrans(w, m, m1, m2, st1, room, c1, st2, c2);
        } else {
          EndOfNothing(c1);
        }
        SurviveTest(w, s, top, uid, entry, c, st2, fuel - 1, room, m2);
        SurvivesAfter(w, m, m2, fuel - 1);
      }
    }
  }

  lemma {:induction false} SurviveWhile(w: World, s: Source.Stmt, uid: nat, entry: bool, c: Cursor, st: Source.Store,
                                        fuel: nat, room: Source.Room, m: State)
    requires s.While?
    requires WorldLinked(w) && Inside(w, c) && Linked(w, GenStmt(s, uid, entry).lines, c) && Ready(w, m, st, room, c)
    requires !entry ==> room.frames < STACK_FRAMES && m.regs[FP] == m.regs[SP]
    requires Source.StarvesIn(w.program, s, st, fuel, room)
    ensures Survives(w, m, fuel)
    decreases fuel, s, 2
  {
    hide Plain, Loaded, Reaches, ReadWord, Linked, Emissions, Next, Fragment, WorldLinked, GenExpr, UidLabel, Survives;
    var tail := TailOf(s, uid, uid + 2, entry);
    var jump := B(UidLabel(uid + 1));
    PlainLines(UidLabel(uid + 1));
    FragmentPlain([jump]);
    var c1 := Cut(w, [jump], tail, c);
    var c2, c3, c4 := CutTail(w, s, uid, uid + 2, entry, c1);
    EndOfNothing(c2);
    LoadedRange(w, m);
    var m1 := Branch(w, jump, c, st, room, m, UidLabel(uid + 1), true, c3);
    SurviveTest(w, s, uid, uid + 2, entry, c1, st, fuel, room, m1);
    SurvivesAfter(w, m, m1, fuel);
  }

  lemma {:induction false} SurviveForLoop(w: World, s: Source.Stmt, uid: nat, entry: bool, c: Cursor, st: Source.Store,
                                          fuel: nat, room: Source.Room, m: State)
    requires s.For?
    requires WorldLinked(w) && Inside(w, c) && Linked(w, GenStmt(s, uid, entry).lines, c) && Ready(w, m, st, room, c)
    requires !entry ==> room.frames < STACK_FRAMES && m.regs[FP] == m.regs[SP]
    requires Source.StarvesIn(w.program, s, st, fuel, room)
    ensures Survives(w, m, fuel)
    decreases fuel, s, 2
  {
    hide Plain, Loaded, Reaches, ReadWord, Linked, Emissions, Next, Fragment, WorldLinked, GenExpr, UidLabel, Survives;
    LoadedRange(w, m);
    var c1, c2, c3 := CutFor(w, s, uid, entry, c);
    if Source.StarvesOptional(w.program, s.initialize, st, fuel, room) {
      SurviveOptional(w, s.initialize, c, st, fuel, room, m);
    } else {
      var m1 := RunOptional(w, s.initialize, c, st, fuel, room, m);
      var st1 := Source.EvalOptional(w.program, s.initialize, st, fuel, room).value;
      SurviveFirstTest(w, s, uid, entry, c1, c2, c3, st1, fuel, room, m1);
      SurvivesAfter(w, m, m1, fuel);
    }
  }

  /** From the test in front of the body of a `for`. */
  lemma {:induction false} SurviveFirstTest(w: World, s: Source.Stmt, uid: nat, entry: bool, c1: Cursor, c2: Cursor,
                                            c3: Cursor, st: Source.Store, fuel: nat, room: Source.Room, m: State)
    requires s.For? && WorldLinked(w) && Ready(w, m, st, room, c1)
    requires Linked(w, Rvalue(s.condition), c1) && c2 == End(Rvalue(s.condition), c1) && Inside(w, c1) && Inside(w, c2)
    requires var jump := Beqz(T0, UidLabel(uid + 2));
      Linked(w, [jump], c2) && c3 == End([jump], c2) && Inside(w, c3)
    requires Linked(w, TailOf(s, uid, uid + 3, entry), c3)
    requires UidLabel(uid + 2) in w.env && w.env[UidLabel(uid + 2)] < BRANCH_RANGE
    requires !entry ==> room.frames < STACK_FRAMES && m.regs[FP] == m.regs[SP]
    requires Source.StarvesFromTest(w.program, s, st, fuel, room)
    ensures Survives(w, m, fuel)
    decreases fuel, s, 1
  {
    hide Plain, Loaded, Reaches, ReadWord, Linked, Emissions, Next, Fragment, WorldLinked, GenExpr, GenStmt, UidLabel,
      End, Survives, Tick, TailOf;
    if Source.Starves(w.program, s.condition, st, fuel, room) {
      SurviveExpr(w, s.condition, c1, st, fuel, room, m);
    } else {
      var m1 := RunExpr(w, s.condition, c1, st, fuel, room, m);
      var st1 := Source.Eval(w.program, s.condition, st, fuel, room).value.store;
      var m2 := BranchOnce(w, Beqz(T0, UidLabel(uid + 2)), c2, st1, room, m1, UidLabel(uid + 2), false, c3);
      SurviveTurn(w, s, uid, uid + 3, entry, c3, st1, fuel, room, m2);
      SurvivesTick(w, m1, TurnSteps(fuel));
      SurvivesLess(w, m1, fuel, TurnSteps(fuel) + 1);
      SurvivesAfter(w, m, m1, fuel);
    }
  }

  /** The places of a linked `for`. */
  lemma {:induction false} CutFor(w: World, s: Source.Stmt, uid: nat, entry: bool, c: Cursor)
    returns (c1: Cursor, c2: Cursor, c3: Cursor)
    requires s.For? && Inside(w, c) && Linked(w, GenStmt(s, uid, entry).lines, c) && 4 * |w.code| < BRANCH_RANGE
    ensures var jump := Beqz(T0, UidLabel(uid + 2));
      && Linked(w, RvalueOptional(s.initialize), c) && c1 == End(RvalueOptional(s.initialize), c) && Inside(w, c1)
      && Linked(w, Rvalue(s.condition), c1) && c2 == End(Rvalue(s.condition), c1) && Inside(w, c2)
      && Linked(w, [jump], c2) && c3 == End([jump], c2) && Inside(w, c3)
    ensures Linked(w, TailOf(s, uid, uid + 3, entry), c3)
    ensures UidLabel(uid + 2) in w.env && w.env[UidLabel(uid + 2)] < BRANCH_RANGE
  {
    hide Plain, Linked, Next, Fragment, GenExpr, UidLabel;
    var first, test, tail := RvalueOptional(s.initialize), Rvalue(s.condition), TailOf(s, uid, uid + 3, entry);
    var endLabel := UidLabel(uid + 2);
    var jump, last := Beqz(T0, endLabel), [Label(endLabel)];
    FragmentOptional(s.initialize);
    FragmentExpr(s.condition, false);
    PlainLines(endLabel);
    FragmentPlain([jump]);
    FragmentOptional(s.increment);
    FragmentStmt(s.body, uid + 3, entry);
    FragmentTail(uid, uid + 1, GenStmt(s.body, uid + 3, entry).lines, RvalueOptional(s.increment), test);
    c1 := Cut(w, first, test + ([jump] + (tail + last)), c);
    c2 := Cut(w, test, [jump] + (tail + last), c1);
    c3 := Cut(w, [jump], tail + last, c2);
    var c4 := Cut(w, tail, last, c3);
    assert last == [Label(endLabel)] + [];
    LabelHere(w, endLabel, [], c4);
  }

  // ----- whole programs -----

  lemma {:induction false} SurviveEntry(w: World, body: Source.Stmt, uid: nat, c: Cursor, st: Source.Store, fuel: nat,
                                        s: State)
    requires WorldLinked(w) && Inside(w, c) && Linked(w, GenFunction(Source.ENTRY, body, uid).lines, c)
    requires Ready(w, s, st, FULL_ROOM, c)
    requires Source.StarvesIn(w.program, body, st, fuel, FULL_ROOM)
    ensures Survives(w, s, fuel)
  {
    hide Linked, Fragment, GenStmt, Next, Loaded, ReadWord, Reaches, WorldLinked, Survives;
    var code := GenStmt(body, uid, true).lines;
    LabelHere(w, Source.ENTRY, [Copy(FP, SP)] + (code + [Ret]), c);
    PlainMoves(FP, SP);
    FragmentPlain([Copy(FP, SP)]);
    var c1 := Cut(w, [Copy(FP, SP)], code + [Ret], c);
    var m := RunCopy(w, [Copy(FP, SP)], c, s, FP, SP);
    NextOfSingle(Copy(FP, SP), c);
    EndOne(Copy(FP, SP), c);
    FragmentStmt(body, uid, true);
    var c2 := Cut(w, code, [Ret], c1);
    SurviveStmt(w, body, uid, true, c1, st, fuel, FULL_ROOM, m);
    SurvivesAfter(w, s, m, fuel);
  }

  /** The source run of the program's entry body runs out of `fuel` before it ends and before anything
      undefined happens. */
  predicate StarvesAt(ts: seq<TopLevel>, uid: nat, fuel: nat)
    requires StartsWithEntry(ts)
  {
    var p := MeaningOf(ts, Labels(GenProgram(ts, uid).lines));
    Source.StarvesIn(p, EntryBody(ts), InitialStore(p), fuel, FULL_ROOM)
  }

  /** A running machine with nothing wrong. */
  predicate Running(s: State) {
    !s.fault && !s.shouldExit && s.regs[ZERO] == 0
  }

  /** A program whose source run is not at its end after `fuel` calls and loop turns is not at its end after
      as many steps of the machine; nothing has faulted and `$zero` is zero. */
  lemma {:induction false} StarvingRuns(ts: seq<TopLevel>, uid: nat, g: Segments, g': Segments, stack: seq<Byte>,
                                        global: seq<Byte>, hi: Word, lo: Word, fuel: nat, k: nat)
    requires Installed(ts, uid, g, g', stack, global) && StartsWithEntry(ts) && StarvesAt(ts, uid, fuel) && k <= fuel
    ensures |FileOf(g')| >= HEADER_SIZE && Running(RunFor(StartState(g', stack, global, hi, lo), k))
  {
    hide Installed, Linked, Loaded, GenProgram, ReadWord, MeaningOf, InitialStore, StartState, FileOf, Ready, WorldLinked,
      VariablesHeld, Source.StarvesIn, RunFor;
    var w, uid', c := ProgramStarts(ts, uid, g, g', stack, global, hi, lo);
    var s := StartState(g', stack, global, hi, lo);
    SurviveEntry(w, EntryBody(ts), uid', c, InitialStore(w.program), fuel, s);
    assert Sane(w, RunFor(s, k));
  }

  /** A source run that is never undefined and never ends: the machine never stops, never faults, and keeps
      `$zero`. */
  lemma {:induction false} EndlessProgram(ts: seq<TopLevel>, uid: nat, g: Segments, g': Segments, stack: seq<Byte>,
                                          global: seq<Byte>, hi: Word, lo: Word, k: nat)
    requires Installed(ts, uid, g, g', stack, global) && StartsWithEntry(ts)
    requires forall fuel: nat :: StarvesAt(ts, uid, fuel)
    ensures |FileOf(g')| >= HEADER_SIZE && Running(RunFor(StartState(g', stack, global, hi, lo), k))
  {
    hide Installed, GenProgram, StarvesAt, StartState, FileOf, RunFor, StartsWithEntry;
    StarvingRuns(ts, uid, g, g', stack, global, hi, lo, k, k);
  }

  /** The only other source runs: from some fuel on the outcome is always the same. */
  lemma {:induction false} RunSettles(ts: seq<TopLevel>, uid: nat, fuel: nat, more: nat)
    requires StartsWithEntry(ts) && !StarvesAt(ts, uid, fuel)
    ensures !StarvesAt(ts, uid, fuel + more)
    ensures var p := MeaningOf(ts, Labels(GenProgram(ts, uid).lines));
      Source.Exec(p, EntryBody(ts), InitialStore(p), fuel + more, FULL_ROOM)
      == Source.Exec(p, EntryBody(ts), InitialStore(p), fuel, FULL_ROOM)
  {
    hide GenProgram, MeaningOf, InitialStore, Source.StarvesIn, Source.Exec, StartsWithEntry;
    var p := MeaningOf(ts, Labels(GenProgram(ts, uid).lines));
    Source.Settles(p, EntryBody(ts), InitialStore(p), fuel, more, FULL_ROOM);
  }

  /** Such as `while (1) ;`, which takes no fuel but its turns. */
  lemma {:induction false} EmptyLoop(p: Source.Program, st: Source.Store, fuel: nat, room: Source.Room)
    ensures Source.StarvesIn(p, Source.While(Source.Literal(1), Source.Empty), st, fuel, room)
  {
    if fuel > 0 {
      EmptyLoop(p, st, fuel - 1, room);
    }
  }
}

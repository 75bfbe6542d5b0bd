/** How much operand stack an expression needs: what the source semantics allows for, and how far the
    running code moves `$gp`. */
module SpillBound {
  import opened Words
  import opened Isa
  import opened Machine
  import opened Assembly
  import opened Execution
  import opened Frames
  import opened Fragments
  import opened Linking
  import opened CodeGeneration
  import opened Correctness
  import Source

  function Max(x: nat, y: nat): nat {
    if x < y then y else x
  }

  /** Operands waiting at once: the left one waits while the right one is computed. */
  function Depth(e: Source.Expr): nat {
    match e
    case Indirection(r) => Depth(r)
    case Comma(first, second) => Max(Depth(first), Depth(second))
    case Binary(_, lhs, rhs) => Max(Depth(lhs), 1 + Depth(rhs))
    case Assignment(lhs, rhs) => Max(Depth(lhs), 1 + Depth(rhs))
    case _ => 0
  }

  predicate CallFree(e: Source.Expr) {
    match e
    case FunctionCall(_) => false
    case Indirection(r) => CallFree(r)
    case Comma(first, second) => CallFree(first) && CallFree(second)
    case Binary(_, lhs, rhs) => CallFree(lhs) && CallFree(rhs)
    case Assignment(lhs, rhs) => CallFree(lhs) && CallFree(rhs)
    case _ => true
  }

  // ----- excursions of `$gp` -----

  /** An instruction that executes and goes on to the next, moving `$gp` by a literal or not at all. */
  predicate GoesOn(i: Instr) {
    match i
    case InsRRR(_, d, _, _) => d != GP
    case InsRRL(op, d, a, _) => d != GP || (op == ADDI && a == GP)
    case InsRRA(op, r, _, _) => op == SW || (op == LW && r != GP)
    case InsRR(op, _, _) => op == DIV
    case InsRL(_, d, _) => d != GP
    case InsR(op, r) => op == MFHI && r != GP
    case _ => false
  }

  predicate AllGoOn(code: seq<Instr>) {
    forall i | 0 <= i < |code| :: GoesOn(code[i])
  }

  function Drift(i: Instr): int {
    if i.InsRRL? && i.r0 == GP then SignExtend(i.imm) else 0
  }

  function Sum(code: seq<Instr>): int {
    if code == [] then 0 else Drift(code[0]) + Sum(code[1..])
  }

  /** Where `$gp` ends up, the highest and the lowest it gets, relative to the start. */
  datatype Excursion = Excursion(net: int, peak: int, low: int)

  const STILL := Excursion(0, 0, 0)

  function By(n: int): Excursion {
    Excursion(n, if n > 0 then n else 0, if n < 0 then n else 0)
  }

  function After(x: Excursion, y: Excursion): Excursion {
    Excursion(x.net + y.net,
              if x.peak < x.net + y.peak then x.net + y.peak else x.peak,
              if x.net + y.low < x.low then x.net + y.low else x.low)
  }

  function ExcursionOf(code: seq<Instr>): Excursion {
    if code == [] then STILL else After(By(Drift(code[0])), ExcursionOf(code[1..]))
  }

  lemma {:induction false} ExcursionAppend(a: seq<Instr>, b: seq<Instr>)
    ensures ExcursionOf(a + b) == After(ExcursionOf(a), ExcursionOf(b))
  {
    hide Drift;
    if a == [] {
      assert a + b == b;
      var _ := SumsInside(b, 0);
    } else {
      assert (a + b)[1..] == a[1..] + b;
      ExcursionAppend(a[1..], b);
    }
  }

  /** The excursion bounds every prefix sum, and some prefix is as high as the peak. */
  lemma {:induction false} SumsInside(code: seq<Instr>, n: nat) returns (top: nat)
    requires n <= |code|
    ensures var x := ExcursionOf(code);
      && x.low <= 0 <= x.peak && x.low <= Sum(code[..n]) <= x.peak && x.net == Sum(code)
      && top <= |code| && Sum(code[..top]) == x.peak
  {
    hide Drift;
    if code == [] {
      top := 0;
    } else {
      var rest := code[1..];
      var t := SumsInside(rest, if n > 0 then n - 1 else 0);
      assert n > 0 ==> code[..n][1..] == rest[..n - 1];
      assert code[..t + 1][1..] == rest[..t];
      top := if ExcursionOf(code).peak > 0 then t + 1 else 0;
      if ExcursionOf(code).peak > 0 && By(Drift(code[0])).peak > Drift(code[0]) + ExcursionOf(rest).peak {
        assert false;
      }
    }
  }

  // ----- the generated code -----

  /** Lines in the text segment that go on and leave `$gp` alone. */
  predicate Quiet(line: Line) {
    || (line.Access? && (line.op == SW || (line.op == LW && line.r != GP)))
    || (line.Op3? && line.d != GP)
    || (line.Rem? && line.d != GP)
    || (line.Li? && line.r != GP)
    || (line.La? && line.r != GP)
  }

  predicate Moves(code: seq<Instr>, x: Excursion) {
    AllGoOn(code) && ExcursionOf(code) == x
  }

  lemma MovesAppend(a: seq<Instr>, b: seq<Instr>, x: Excursion, y: Excursion)
    requires Moves(a, x) && Moves(b, y)
    ensures Moves(a + b, After(x, y))
  {
    hide GoesOn, ExcursionOf;
    ExcursionAppend(a, b);
  }

  lemma MovesOne(i: Instr)
    requires GoesOn(i)
    ensures Moves([i], By(Drift(i)))
  {
    hide Drift, GoesOn;
    var d := Drift(i);
    assert [i][1..] == [];
    assert After(By(d), STILL) == By(d);
    assert ExcursionOf([i]) == After(By(d), ExcursionOf([]));
    assert AllGoOn([i]);
  }

  lemma MovesTwo(i: Instr, j: Instr)
    requires GoesOn(i) && GoesOn(j)
    ensures Moves([i, j], After(By(Drift(i)), By(Drift(j))))
  {
    hide Moves, Drift, GoesOn;
    MovesOne(i);
    MovesOne(j);
    assert [i, j] == [i] + [j];
    MovesAppend([i], [j], By(Drift(i)), By(Drift(j)));
  }

  lemma QuietLine(line: Line, c: Cursor, env: Environment)
    requires Quiet(line) && c.segment.TextSegment?
    ensures Moves(LineCode(line, c, env), STILL) && Next(line, c).segment.TextSegment?
  {
    hide LineCode, Moves, Next;
    if line.Access? {
      CodeOfAccess(line.op, line.r, line.address, c, env);
      MovesOne(LineCode(line, c, env)[0]);
    } else if line.Op3? {
      CodeOfOp3(line.op, line.d, line.a, line.b, c, env);
      MovesOne(LineCode(line, c, env)[0]);
    } else if line.Rem? {
      CodeOfRem(line.d, line.a, line.b, c, env);
      MovesTwo(LineCode(line, c, env)[0], LineCode(line, c, env)[1]);
    } else if line.Li? {
      CodeOfLi(line.r, line.l, c, env);
      if Upper(Wrap(line.l)) != 0 {
        MovesTwo(LineCode(line, c, env)[0], LineCode(line, c, env)[1]);
      } else {
        MovesOne(LineCode(line, c, env)[0]);
      }
    } else {
      CodeOfLa(line.r, line.target, c, env);
      MovesTwo(LineCode(line, c, env)[0], LineCode(line, c, env)[1]);
    }
  }

  lemma {:induction false} QuietLines(lines: seq<Line>, c: Cursor, env: Environment)
    requires (forall i | 0 <= i < |lines| :: Quiet(lines[i])) && c.segment.TextSegment?
    ensures Moves(TextListing(lines, c, env), STILL) && End(lines, c).segment.TextSegment?
  {
    hide LineCode, Next, Moves;
    if lines == [] {
      NothingMoves();
    } else {
      QuietLine(lines[0], c, env);
      QuietLines(lines[1..], Next(lines[0], c), env);
      MovesAppend(LineCode(lines[0], c, env), TextListing(lines[1..], Next(lines[0], c), env), STILL, STILL);
    }
  }

  lemma NothingMoves()
    ensures Moves([], STILL)
  {
  }

  /** `addi $gp, $gp, k`. */
  lemma MovingLine(k: int, c: Cursor, env: Environment)
    requires c.segment.TextSegment? && -0x8000 <= k < 0x8000
    ensures Moves(TextListing([OpLit(ADDI, GP, GP, k)], c, env), By(k))
    ensures End([OpLit(ADDI, GP, GP, k)], c).segment.TextSegment?
  {
    hide LineCode, Moves, Next, TextListing, End;
    CodeOfAddi(GP, k, c, env);
    MovesOne(InsRRL(ADDI, GP, GP, LowHalf(k)));
    assert SignExtend(LowHalf(k)) == k;
    ListingOfOne(OpLit(ADDI, GP, GP, k), c, env);
  }

  lemma ListingOfOne(line: Line, c: Cursor, env: Environment)
    requires InText(line, c)
    ensures TextListing([line], c, env) == LineCode(line, c, env) && End([line], c) == Next(line, c)
  {
    hide LineCode, Next;
    assert [line][1..] == [];
  }

  lemma {:induction false} TextListingAppend(a: seq<Line>, b: seq<Line>, c: Cursor, env: Environment)
    ensures TextListing(a + b, c, env) == TextListing(a, c, env) + TextListing(b, End(a, c), env)
  {
    hide LineCode, Next;
    if a == [] {
      assert a + b == b;
    } else {
      assert (a + b)[1..] == a[1..] + b;
      TextListingAppend(a[1..], b, Next(a[0], c), env);
    }
  }

  /** Lines whose code moves `$gp` so, wherever they are in the text. */
  ghost predicate Moving(lines: seq<Line>, x: Excursion) {
    forall c: Cursor, env: Environment | c.segment.TextSegment? ::
      Moves(TextListing(lines, c, env), x) && End(lines, c).segment.TextSegment?
  }

  lemma MovingAppend(a: seq<Line>, b: seq<Line>, x: Excursion, y: Excursion)
    requires Moving(a, x) && Moving(b, y)
    ensures Moving(a + b, After(x, y))
  {
    hide Moves, TextListing, End;
    forall c: Cursor, env: Environment | c.segment.TextSegment?
      ensures Moves(TextListing(a + b, c, env), After(x, y)) && End(a + b, c).segment.TextSegment?
    {
      TextListingAppend(a, b, c, env);
      EndAppend(a, b, c);
      MovesAppend(TextListing(a, c, env), TextListing(b, End(a, c), env), x, y);
    }
  }

  lemma MovingQuiet(lines: seq<Line>)
    requires forall i | 0 <= i < |lines| :: Quiet(lines[i])
    ensures Moving(lines, STILL)
  {
    hide Moves, TextListing, End, Quiet;
    forall c: Cursor, env: Environment | c.segment.TextSegment?
      ensures Moves(TextListing(lines, c, env), STILL) && End(lines, c).segment.TextSegment?
    {
      QuietLines(lines, c, env);
    }
  }

  lemma MovingBy(k: int)
    requires -0x8000 <= k < 0x8000
    ensures Moving([OpLit(ADDI, GP, GP, k)], By(k))
  {
    hide Moves, TextListing, End;
    forall c: Cursor, env: Environment | c.segment.TextSegment?
      ensures Moves(TextListing([OpLit(ADDI, GP, GP, k)], c, env), By(k))
      ensures End([OpLit(ADDI, GP, GP, k)], c).segment.TextSegment?
    {
      MovingLine(k, c, env);
    }
  }

  lemma DeclareIsStill(x: string, kind: Source.Type, c: Cursor, env: Environment)
    requires c.segment.TextSegment?
    ensures Moves(TextListing(Declare(x, kind), c, env), STILL) && End(Declare(x, kind), c).segment.TextSegment?
  {
    hide Moves, TextListing, Declare, End;
    EndOfDeclare(x, kind, c);
    ListingSize(Declare(x, kind), c, env);
    assert TextListing(Declare(x, kind), c, env) == [];
    NothingMoves();
  }

  lemma MovingDeclare(x: string, kind: Source.Type)
    ensures Moving(Declare(x, kind), STILL)
  {
    hide Moves, TextListing, Declare, End;
    var lines := Declare(x, kind);
    forall c: Cursor, env: Environment | c.segment.TextSegment?
      ensures Moves(TextListing(lines, c, env), STILL) && End(lines, c).segment.TextSegment?
    {
      DeclareIsStill(x, kind, c, env);
    }
  }

  lemma PushPop(last: seq<Line>)
    requires last == STORE || exists op :: last == Operate(op)
    ensures Moving(PUSH, By(4)) && Moving(POP + last, By(-4))
  {
    hide Moving;
    MovingQuiet([PUSH[0]]);
    MovingBy(4);
    assert PUSH == [PUSH[0]] + [OpLit(ADDI, GP, GP, 4)];
    MovingAppend([PUSH[0]], [OpLit(ADDI, GP, GP, 4)], STILL, By(4));
    MovingBy(-4);
    MovingQuiet([POP[1]] + last);
    assert POP + last == [OpLit(ADDI, GP, GP, -4)] + ([POP[1]] + last);
    MovingAppend([OpLit(ADDI, GP, GP, -4)], [POP[1]] + last, By(-4), STILL);
  }

  /** Around an operand: the left value waits above the entry `$gp`, and is taken off again. */
  lemma AroundOperand(a: seq<Line>, b: seq<Line>, last: seq<Line>, x: nat, y: nat)
    requires last == STORE || exists op :: last == Operate(op)
    requires Moving(a, Excursion(0, x, 0)) && Moving(b, Excursion(0, y, 0))
    ensures Moving(a + (PUSH + (b + (POP + last))), Excursion(0, Max(x, 4 + y), 0))
  {
    hide Moving;
    PushPop(last);
    MovingAppend(b, POP + last, Excursion(0, y, 0), By(-4));
    MovingAppend(PUSH, b + (POP + last), By(4), Excursion(-4, y, -4));
    MovingAppend(a, PUSH + (b + (POP + last)), Excursion(0, x, 0), Excursion(0, 4 + y, 0));
  }

  /** The code of a call-free expression leaves `$gp` where it was, never takes it lower, and raises it to
      just four bytes for every operand waiting at the deepest point. */
  lemma {:induction false} HighestSpill(e: Source.Expr, lval: bool)
    requires CallFree(e)
    ensures Moving(GenExpr(e, lval).lines, Excursion(0, 4 * Depth(e), 0))
  {
    hide Moving, Declare;
    match e
    case Indirection(r) =>
      HighestSpill(r, lval);
      MovingQuiet(LOAD);
      MovingAppend(GenExpr(r, lval).lines, LOAD, Excursion(0, 4 * Depth(r), 0), STILL);
    case Comma(first, second) =>
      var c1 := GenExpr(first, lval);
      HighestSpill(first, lval);
      HighestSpill(second, c1.lval);
      MovingAppend(c1.lines, GenExpr(second, c1.lval).lines, Excursion(0, 4 * Depth(first), 0),
                   Excursion(0, 4 * Depth(second), 0));
    case Binary(op, lhs, rhs) =>
      var c1 := GenExpr(lhs, lval);
      HighestSpill(lhs, lval);
      HighestSpill(rhs, c1.lval);
      AroundOperand(c1.lines, GenExpr(rhs, c1.lval).lines, Operate(op), 4 * Depth(lhs), 4 * Depth(rhs));
    case Assignment(lhs, rhs) =>
      HighestSpill(lhs, true);
      HighestSpill(rhs, false);
      AroundOperand(GenExpr(lhs, true).lines, GenExpr(rhs, false).lines, STORE, 4 * Depth(lhs), 4 * Depth(rhs));
    case Declaration(x, kind) =>
      MovingDeclare(x, kind);
      MovingQuiet(if lval then [La(T0, x)] else []);
      MovingAppend(Declare(x, kind), if lval then [La(T0, x)] else [], STILL, STILL);
    case _ =>
      MovingQuiet(GenExpr(e, lval).lines);
  }

  // ----- the machine's run -----

  ghost predicate Went(s: State, t: State, drift: int) {
    t.fault || (t.pc == Wrap(s.pc + 4) && t.regs[GP] == Wrap(s.regs[GP] + drift) && t.shouldExit == s.shouldExit)
  }

  lemma ExecuteGoesOn(i: Instr, s: State)
    requires GoesOn(i) && !s.fault
    ensures Went(s, Execute(i, s), Drift(i))
  {
    hide Went, Execute;
    match i
    case InsRRL(_, d, _, imm) =>
      if d == GP {
        AddToGp(imm, s);
        WentBy(s, imm);
      } else {
        GoesOnRegister(i, s);
      }
    case InsRRA(_, _, _, _) => GoesOnMemory(i, s);
    case InsRR(_, _, _) => GoesOnDivision(i, s);
    case _ => GoesOnRegister(i, s);
  }

  lemma WentBy(s: State, imm: Half)
    ensures Went(s, s.(pc := Wrap(s.pc + 4), regs := s.regs[GP := Wrap(s.regs[GP] + SignExtend(imm))]), SignExtend(imm))
  {
  }

  lemma GoesOnRegister(i: Instr, s: State)
    requires GoesOn(i) && !s.fault && !i.InsRRA? && !i.InsRR? && (i.InsRRL? ==> i.r0 != GP)
    ensures Went(s, Execute(i, s), 0)
  {
    hide Alu, AluImmediate;
  }

  lemma GoesOnMemory(i: Instr, s: State)
    requires GoesOn(i) && !s.fault && i.InsRRA?
    ensures Went(s, Execute(i, s), 0)
  {
    hide ReadWord, WriteWord;
  }

  lemma GoesOnDivision(i: Instr, s: State)
    requires GoesOn(i) && !s.fault && i.InsRR?
    ensures Went(s, Execute(i, s), 0)
  {
    var t := Execute(i, s);
    assert t.regs == s.regs;
  }

  lemma AddToGp(imm: Half, s: State)
    ensures Execute(InsRRL(ADDI, GP, GP, imm), s)
      == s.(pc := Wrap(s.pc + 4), regs := s.regs[GP := Wrap(s.regs[GP] + SignExtend(imm))])
  {
    hide SignExtend;
  }

  /** A run through code that goes on: one instruction a step, `$gp` as the instructions move it. */
  lemma {:induction false} RunsThrough(code: seq<Instr>, l: nat, listing: seq<Instr>, s: State, n: nat)
    requires CodeAt(code, l, listing) && n <= |listing| && AllGoOn(listing)
    requires s.pc == l && !s.shouldExit && !RunFor(s, n).fault
    requires forall k: nat | k < n :: Loaded(code, RunFor(s, k).mem)
    ensures var t := RunFor(s, n);
      t.pc == l + 4 * n && t.regs[GP] == Wrap(s.regs[GP] + Sum(listing[..n])) && !t.shouldExit
    decreases n
  {
    hide Loaded, Step, GoesOn, Drift, Execute, CodeAt;
    if n > 0 {
      RunForSum(s, n - 1, 1);
      var m := RunFor(s, n - 1);
      assert RunFor(m, 1) == Tick(m) by { assert RunFor(Tick(m), 0) == Tick(m); }
      RunsThrough(code, l, listing, s, n - 1);
      OneMore(listing, n - 1);
      StepThrough(code, l, listing, m, n - 1);
    }
  }

  lemma {:induction false} OneMore(code: seq<Instr>, n: nat)
    requires n < |code|
    ensures Sum(code[..n + 1]) == Sum(code[..n]) + Drift(code[n])
  {
    hide Drift;
    if n == 0 {
      assert code[..1][1..] == [];
    } else {
      OneMore(code[1..], n - 1);
      assert code[..n + 1][1..] == code[1..][..n] && code[..n][1..] == code[1..][..n - 1];
    }
  }

  lemma StepThrough(code: seq<Instr>, l: nat, listing: seq<Instr>, s: State, n: nat)
    requires CodeAt(code, l, listing) && n < |listing| && AllGoOn(listing)
    requires Loaded(code, s.mem) && s.pc == l + 4 * n && !s.shouldExit && !Tick(s).fault
    ensures var t := Tick(s);
      t.pc == l + 4 * n + 4 && t.regs[GP] == Wrap(s.regs[GP] + Drift(listing[n])) && !t.shouldExit
  {
    hide Decode, ReadWord, Execute, GoesOn, Drift;
    var i := l / 4 + n;
    assert s.pc == 4 * i && code[i] == listing[n];
    ExecuteGoesOn(listing[n], s);
  }

  /** On the machine: while the code of a call-free expression runs, as long as it does not fault or
      overwrite the text, `$gp` stays between its entry value and four bytes more for every operand of the
      depth, it does get that high, and at the end it is back. */
  lemma {:induction false} SpillPeak(w: World, e: Source.Expr, c: Cursor, s: State) returns (length: nat, top: nat)
    requires CallFree(e) && Linked(w, Rvalue(e), c) && Inside(w, c) && AtCursor(w, s, c)
    requires c.text % 4 == 0 && s.regs[GP] + 4 * Depth(e) < 0x1_0000_0000
    ensures length == |TextListing(Rvalue(e), c, w.env)| && top <= length
    ensures Runnable(w, s, length) ==>
      && (forall k: nat | k <= length :: s.regs[GP] <= RunFor(s, k).regs[GP] <= s.regs[GP] + 4 * Depth(e))
      && RunFor(s, top).regs[GP] == s.regs[GP] + 4 * Depth(e)
      && RunFor(s, length).regs[GP] == s.regs[GP] && RunFor(s, length).pc == End(Rvalue(e), c).text
  {
    hide Moves, Linked, Loaded, Runnable, RunFor, ExcursionOf, Sum, TextListing, Moving, CodeAt;
    var listing := TextListing(Rvalue(e), c, w.env);
    length := |listing|;
    ExpressionListing(w, e, c);
    var x := Excursion(0, 4 * Depth(e), 0);
    MovesGoOn(listing, x);
    top := SumsInside(listing, 0);
    if Runnable(w, s, length) {
      forall k: nat | k <= length
        ensures RunFor(s, k).regs[GP] == s.regs[GP] + Sum(listing[..k]) && 0 <= Sum(listing[..k]) <= 4 * Depth(e)
        ensures RunFor(s, k).pc == c.text + 4 * k
      {
        SpillAt(w, c.text, listing, x, s, k);
      }
      assert listing[..length] == listing;
    }
  }

  lemma {:induction false} ExpressionListing(w: World, e: Source.Expr, c: Cursor)
    requires CallFree(e) && Linked(w, Rvalue(e), c) && Inside(w, c) && c.text % 4 == 0
    ensures var listing := TextListing(Rvalue(e), c, w.env);
      && Moves(listing, Excursion(0, 4 * Depth(e), 0)) && CodeAt(w.code, c.text, listing)
      && End(Rvalue(e), c).text == c.text + 4 * |listing|
  {
    hide Moves, Linked, TextListing, CodeAt, GenExpr;
    HighestSpill(e, false);
    FragmentExpr(e, false);
    ListingSize(Rvalue(e), c, w.env);
    LinkedListing(w, Rvalue(e), c);
  }

  lemma SpillAt(w: World, l: nat, listing: seq<Instr>, x: Excursion, s: State, k: nat)
    requires CodeAt(w.code, l, listing) && Moves(listing, x) && k <= |listing| && Runnable(w, s, |listing|)
    requires s.pc == l && !s.shouldExit && x.low == 0 && s.regs[GP] + x.peak < 0x1_0000_0000
    ensures RunFor(s, k).regs[GP] == s.regs[GP] + Sum(listing[..k]) && 0 <= Sum(listing[..k]) <= x.peak
    ensures RunFor(s, k).pc == l + 4 * k
  {
    hide Loaded, RunFor, ExcursionOf, Sum, CodeAt;
    var _ := SumsInside(listing, k);
    RunnableBefore(w, s, |listing|, k);
    RunsThrough(w.code, l, listing, s, k);
  }

  /** When the source evaluation is defined nothing else has to be assumed of the machine's run. */
  lemma {:induction false} SpillPeakDefined(w: World, e: Source.Expr, c: Cursor, st: Source.Store, fuel: nat,
                                            room: Source.Room, s: State) returns (length: nat, top: nat)
    requires CallFree(e) && WorldLinked(w) && Inside(w, c) && Linked(w, Rvalue(e), c) && Ready(w, s, st, room, c)
    requires c.text % 4 == 0 && Source.Eval(w.program, e, st, fuel, room).Some?
    ensures top <= length
    ensures forall k: nat | k <= length :: s.regs[GP] <= RunFor(s, k).regs[GP] <= s.regs[GP] + 4 * Depth(e)
    ensures RunFor(s, top).regs[GP] == s.regs[GP] + 4 * Depth(e)
    ensures RunFor(s, length).regs[GP] == s.regs[GP] && RunFor(s, length).pc == End(Rvalue(e), c).text
  {
    hide WorldLinked, Linked, Loaded, Runnable, Reaches, RunFor, TextListing, Source.Eval, End, VariablesHeld, Separated,
      Kept;
    RoomNeeded(w.program, e, st, fuel, room, room.(spills := room.spills + Depth(e)));
    length, top := SpillPeak(w, e, c, s);
    var t := RunExpr(w, e, c, st, fuel, room, s);
    RunsWhole(w, e, c, s, t, length);
  }

  /** A run that came to the end of the code went through all of it. */
  lemma {:induction false} RunsWhole(w: World, e: Source.Expr, c: Cursor, s: State, t: State, length: nat)
    requires CallFree(e) && Inside(w, c) && Linked(w, Rvalue(e), c) && c.text % 4 == 0 && AtCursor(w, s, c)
    requires Reaches(w, s, t) && Sane(w, t) && t.pc == End(Rvalue(e), c).text
    requires length == |TextListing(Rvalue(e), c, w.env)|
    ensures Runnable(w, s, length)
  {
    hide Moves, Linked, Loaded, RunFor, TextListing, CodeAt, End, GoesOn, Sum;
    var listing := TextListing(Rvalue(e), c, w.env);
    var n: nat :| ReachesIn(w, s, t, n);
    ExpressionListing(w, e, c);
    if n < length {
      MovesGoOn(listing, Excursion(0, 4 * Depth(e), 0));
      RunsThrough(w.code, c.text, listing, s, n);
      assert false;
    }
  }

  lemma MovesGoOn(code: seq<Instr>, x: Excursion)
    requires Moves(code, x)
    ensures AllGoOn(code) && ExcursionOf(code) == x
  {
  }

  /** No fault within so many steps, and the text stays as loaded. */
  predicate Runnable(w: World, s: State, n: nat) {
    !RunFor(s, n).fault && forall k: nat | k < n :: Loaded(w.code, RunFor(s, k).mem)
  }

  lemma {:induction false} RunnableBefore(w: World, s: State, n: nat, k: nat)
    requires Runnable(w, s, n) && k <= n
    ensures Runnable(w, s, k)
  {
    hide Loaded, RunFor;
    RunForSum(s, k, n - k);
    if RunFor(s, k).fault {
      HaltedStays(RunFor(s, k), n - k);
    }
  }

  /** Linked lines are their listing in the code. */
  lemma {:induction false} LinkedListing(w: World, lines: seq<Line>, c: Cursor)
    requires Linked(w, lines, c) && Proper(lines, c) && c.text % 4 == 0 && c.text <= 4 * |w.code|
    ensures CodeAt(w.code, c.text, TextListing(lines, c, w.env))
  {
    hide LineCode, Next, CodeAt;
    if lines == [] {
      NoCodeAt(w.code, c.text);
    } else {
      LineSize(lines[0], c, w.env);
      LineInside(w, lines[0], c);
      LinkedListing(w, lines[1..], Next(lines[0], c));
      var head := if InText(lines[0], c) then LineCode(lines[0], c, w.env) else [];
      var tail := TextListing(lines[1..], Next(lines[0], c), w.env);
      CodeAtAppend(w.code, c.text, head, tail);
    }
  }

  lemma NoCodeAt(code: seq<Instr>, l: nat)
    requires l % 4 == 0 && l <= 4 * |code|
    ensures CodeAt(code, l, [])
  {
  }

  lemma CodeAtAppend(code: seq<Instr>, l: nat, a: seq<Instr>, b: seq<Instr>)
    requires (a != [] ==> CodeAt(code, l, a)) && l % 4 == 0 && CodeAt(code, l + 4 * |a|, b)
    ensures CodeAt(code, l, a + b)
  {
    assert (l + 4 * |a|) / 4 == l / 4 + |a|;
    forall j | 0 <= j < |a + b| ensures code[l / 4 + j] == (a + b)[j] {
      if j >= |a| {
        assert code[(l + 4 * |a|) / 4 + (j - |a|)] == b[j - |a|];
      }
    }
  }

  // ----- the source runs -----

  /** A call-free evaluation needs exactly that depth of operand stack and nothing else of the room: with
      less it has no result, with more always the same. */
  lemma {:induction false} RoomNeeded(p: Source.Program, e: Source.Expr, st: Source.Store, fuel: nat, room: Source.Room,
                                      ample: Source.Room)
    requires CallFree(e) && Depth(e) <= ample.spills
    ensures Source.Eval(p, e, st, fuel, room) ==
      if Depth(e) <= room.spills then Source.Eval(p, e, st, fuel, ample) else None
    decreases e
  {
    match e
    case Indirection(r) => RoomNeeded(p, r, st, fuel, room, ample);
    case Comma(first, second) =>
      RoomNeeded(p, first, st, fuel, room, ample);
      var d := Source.Eval(p, first, st, fuel, ample);
      if d.Some? {
        RoomNeeded(p, second, d.value.store, fuel, room, ample);
      }
    case Binary(op, lhs, rhs) =>
      RoomNeeded(p, lhs, st, fuel, room, ample);
      var d := Source.Eval(p, lhs, st, fuel, ample);
      if d.Some? && room.spills > 0 {
        RoomNeeded(p, rhs, d.value.store, fuel, room.(spills := room.spills - 1), ample.(spills := ample.spills - 1));
      }
    case Assignment(lhs, rhs) =>
      if Source.Locate(p, lhs, st).Some? {
        AddressNeedsNone(p, lhs, st);
      }
      if room.spills > 0 {
        RoomNeeded(p, rhs, st, fuel, room.(spills := room.spills - 1), ample.(spills := ample.spills - 1));
      }
    case _ =>
  }

  lemma {:induction false} AddressNeedsNone(p: Source.Program, e: Source.Expr, st: Source.Store)
    requires Source.Locate(p, e, st).Some?
    ensures Depth(e) == 0
  {
    match e
    case Indirection(r) => AddressNeedsNone(p, r, st);
    case _ =>
  }

  /** So the scratch area's 64 words are enough for just the call-free expressions of depth at most 64. */
  lemma {:induction false} FitsGlobalArea(p: Source.Program, e: Source.Expr, st: Source.Store, fuel: nat,
                                          ample: Source.Room, frames: nat)
    requires CallFree(e) && Depth(e) <= ample.spills
    ensures Source.Eval(p, e, st, fuel, Source.Room(SPILL_WORDS, frames)) ==
      if GLOBAL_OFFSET + 4 * Depth(e) <= GLOBAL_OFFSET + GLOBAL_SIZE then Source.Eval(p, e, st, fuel, ample) else None
  {
    RoomNeeded(p, e, st, fuel, Source.Room(SPILL_WORDS, frames), ample);
  }
}

/** Running generated lines on the machine: when a program is loaded and linked, and what one line
    does to the state. */
module Execution {
  import opened Words
  import opened Isa
  import opened Machine
  import opened Assembly
  import Source

  /** Pc-relative operands reach everything in a text segment below this size. */
  const BRANCH_RANGE := 0x8000

  /** Where a function was generated: its first label number and the cursor in front of it. */
  datatype Home = Home(uid: nat, cursor: Cursor)

  /** A linked program: its meaning, its decoded text, its label table, its functions' places. */
  datatype World = World(program: Source.Program, code: seq<Instr>, env: Environment, home: map<string, Home>)

  // ----- linking -----

  function Listing(es: seq<Emission>, location: nat, env: Environment): seq<Instr> {
    if es == [] then []
    else Instructions(es[0], location, env) + Listing(es[1..], location + Size(es[0]), env)
  }

  lemma ListingOne(e: Emission, location: nat, env: Environment)
    ensures Listing([e], location, env) == Instructions(e, location, env)
  {
    assert [e][1..] == [];
  }

  lemma ListingTwo(e: Emission, e': Emission, location: nat, env: Environment)
    ensures Listing([e, e'], location, env)
      == Instructions(e, location, env) + Instructions(e', location + Size(e), env)
  {
    assert [e, e'][1..] == [e'];
    ListingOne(e', location + Size(e), env);
  }

  lemma SizeOfOne(e: Emission)
    ensures TotalSize([e]) == Size(e)
  {
    assert [e][1..] == [];
  }

  lemma SizeOfTwo(e: Emission, e': Emission)
    ensures TotalSize([e, e']) == Size(e) + Size(e')
  {
    assert [e, e'][1..] == [e'];
    SizeOfOne(e');
  }

  predicate CodeAt(code: seq<Instr>, location: nat, listing: seq<Instr>) {
    && location % 4 == 0
    && location / 4 + |listing| <= |code|
    && forall j | 0 <= j < |listing| :: code[location / 4 + j] == listing[j]
  }

  /** The instructions of one line. */
  function LineCode(line: Line, c: Cursor, env: Environment): seq<Instr> {
    Listing(Emissions(line, c), c.text, env)
  }

  predicate LineLinked(w: World, line: Line, c: Cursor) {
    if line.Label? then line.name in w.env && w.env[line.name] == Location(c)
    else
      c.segment.TextSegment? ==>
        && CodeAt(w.code, c.text, LineCode(line, c, w.env))
        && forall i | 0 <= i < |Emissions(line, c)| :: Resolvable(Emissions(line, c)[i], w.env)
  }

  /** The lines sit in the linked program at the cursor. */
  predicate Linked(w: World, lines: seq<Line>, c: Cursor) {
    lines == [] || (LineLinked(w, lines[0], c) && Linked(w, lines[1..], Next(lines[0], c)))
  }

  lemma {:induction false} EndAppend(a: seq<Line>, b: seq<Line>, c: Cursor)
    ensures End(a + b, c) == End(b, End(a, c))
  {
    if a == [] {
      assert a + b == b;
    } else {
      assert (a + b)[1..] == a[1..] + b;
      EndAppend(a[1..], b, Next(a[0], c));
    }
  }

  lemma {:induction false} LinkedAppend(w: World, a: seq<Line>, b: seq<Line>, c: Cursor)
    ensures Linked(w, a + b, c) <==> Linked(w, a, c) && Linked(w, b, End(a, c))
  {
    if a == [] {
      assert a + b == b;
    } else {
      assert (a + b)[1..] == a[1..] + b;
      LinkedAppend(w, a[1..], b, Next(a[0], c));
    }
  }

  // ----- runs -----

  /** The text segment of memory decodes to the program's code. */
  predicate Loaded(code: seq<Instr>, m: Memory) {
    && m.textLength == 4 * |code| <= |m.image|
    && m.textLength < BRANCH_RANGE
    && forall i | 0 <= i < |code| ::
         ReadWord(m, 4 * i).Some? && Decode(ReadWord(m, 4 * i).value) == Some(code[i])
  }

  /** A live state about to execute the text at the cursor. */
  predicate Sane(w: World, s: State) {
    && !s.fault && !s.shouldExit && s.regs[ZERO] == 0
    && Loaded(w.code, s.mem) && |s.mem.stack| == STACK_SIZE && |s.mem.global| == GLOBAL_SIZE
  }

  predicate AtCursor(w: World, s: State, c: Cursor) {
    Sane(w, s) && c.segment.TextSegment? && s.pc == c.text
  }

  ghost predicate Arrives(s: State, t: State) {
    exists n: nat :: RunFor(s, n) == t
  }

  lemma ArrivesTrans(s: State, t: State, u: State)
    requires Arrives(s, t) && Arrives(t, u)
    ensures Arrives(s, u)
  {
    var m: nat :| RunFor(s, m) == t;
    var n: nat :| RunFor(t, n) == u;
    RunForSum(s, m, n);
  }

  /** In so many steps from one state to another, with every state on the way live, `$zero` zero and the
      text as loaded. */
  ghost predicate ReachesIn(w: World, s: State, t: State, n: nat) {
    RunFor(s, n) == t && forall k: nat | k < n :: Sane(w, RunFor(s, k))
  }

  ghost predicate Reaches(w: World, s: State, t: State) {
    exists n: nat :: ReachesIn(w, s, t, n)
  }

  lemma ReachesSelf(w: World, s: State)
    ensures Reaches(w, s, s)
  {
    assert ReachesIn(w, s, s, 0);
  }

  lemma ReachesTrans(w: World, s: State, t: State, u: State)
    requires Reaches(w, s, t) && Reaches(w, t, u)
    ensures Reaches(w, s, u)
  {
    hide Sane, RunFor;
    var m: nat :| ReachesIn(w, s, t, m);
    var n: nat :| ReachesIn(w, t, u, n);
    RunForSum(s, m, n);
    forall k: nat | k < m + n ensures Sane(w, RunFor(s, k)) {
      if k >= m {
        RunForSum(s, m, k - m);
        assert Sane(w, RunFor(t, k - m));
      }
    }
    assert ReachesIn(w, s, u, m + n);
  }

  lemma ReachesTick(w: World, s: State)
    requires Sane(w, s)
    ensures Reaches(w, s, Tick(s))
  {
    hide Sane;
    assert RunFor(Tick(s), 0) == Tick(s);
    assert RunFor(s, 0) == s;
    assert ReachesIn(w, s, Tick(s), 1);
  }

  lemma ReachesArrives(w: World, s: State, t: State)
    requires Reaches(w, s, t)
    ensures Arrives(s, t)
  {
    var n: nat :| ReachesIn(w, s, t, n);
  }

  // ----- one line -----

  predicate Emits(line: Line) {
    !line.Label? && !line.TextDirective? && !line.DataDirective?
  }

  /** A line that is a single instruction executes in one step. */
  lemma {:induction false} RunLine(w: World, lines: seq<Line>, c: Cursor, s: State, i: Instr) returns (t: State)
    requires lines != [] && Emits(lines[0]) && Linked(w, lines, c) && AtCursor(w, s, c)
    requires LineCode(lines[0], c, w.env) == [i] && Next(lines[0], c) == c.(text := c.text + 4)
    ensures t == Execute(i, s) && Reaches(w, s, t)
    ensures Linked(w, lines[1..], c.(text := c.text + 4)) && c.text + 4 < BRANCH_RANGE
  {
    hide Execute, Decode, ReadWord, Loaded, Reaches, Emissions, Listing, LineCode;
    t := StepCode(w, c.text, [i], s);
  }

  lemma {:induction false} RunLineTwo(w: World, lines: seq<Line>, c: Cursor, s: State, i: Instr, j: Instr)
    returns (t: State)
    requires lines != [] && Emits(lines[0]) && Linked(w, lines, c) && AtCursor(w, s, c)
    requires LineCode(lines[0], c, w.env) == [i, j] && Next(lines[0], c) == c.(text := c.text + 8)
    requires var m := Execute(i, s); Sane(w, m) && m.pc == Wrap(s.pc + 4)
    ensures t == Execute(j, Execute(i, s)) && Reaches(w, s, t)
    ensures Linked(w, lines[1..], c.(text := c.text + 8)) && c.text + 8 < BRANCH_RANGE
  {
    hide Execute, Decode, ReadWord, Loaded, Reaches, Emissions, Listing, LineCode;
    var m := StepCode(w, c.text, [i, j], s);
    t := StepCode(w, c.text + 4, [i, j][1..], m);
    ReachesTrans(w, s, m, t);
  }

  lemma {:induction false} StepCode(w: World, location: nat, listing: seq<Instr>, s: State) returns (t: State)
    requires listing != [] && CodeAt(w.code, location, listing) && Sane(w, s) && s.pc == location
    ensures t == Execute(listing[0], s) && Reaches(w, s, t)
    ensures CodeAt(w.code, location + 4, listing[1..])
    ensures location + 4 < BRANCH_RANGE
  {
    hide Execute, Decode, ReadWord;
    var i := location / 4;
    assert 4 * i == location;
    assert w.code[i + 0] == listing[0];
    assert ReadWord(s.mem, 4 * i).Some?;
    t := Tick(s);
    ReachesTick(w, s);
    forall j | 0 <= j < |listing| - 1 ensures w.code[(location + 4) / 4 + j] == listing[1..][j] {
      assert w.code[location / 4 + (j + 1)] == listing[j + 1];
    }
  }

  /** What the virtual machine adds to the distance gives the target back exactly when the distance
      fits sixteen bits. */
  lemma RelativeAddress(target: int, position: Word, base: Word)
    ensures Wrap(base + Distance(target, position) + position) == Wrap(target + base)
      <==> -0x8000 <= Signed(Wrap(target - position)) < 0x8000
  {
    var t := target - position;
    var d := Distance(target, position);
    var x := Signed(Wrap(t));
    var m := SignExtendedHalf(t);
    var n := SignedWord(t);
    SameWord(base + d + position, target + base, -0x1_0000 * m);
    DistanceFits(t, m, n);
  }

  /** Two representatives of t, one in 16 and one in 32 bits, agree when their quotients do. */
  lemma DistanceFits(t: int, m: int, n: int)
    requires -0x8000 <= t - 0x1_0000 * m < 0x8000
    requires -0x8000_0000 <= t - 0x1_0000_0000 * n < 0x8000_0000
    ensures Wrap(-0x1_0000 * m) == 0 <==> -0x8000 <= t - 0x1_0000_0000 * n < 0x8000
  {
    if -0x8000 <= t - 0x1_0000_0000 * n < 0x8000 {
      assert m == 0x1_0000 * n;
    }
    if Wrap(-0x1_0000 * m) == 0 {
      var q := (-0x1_0000 * m) / 0x1_0000_0000;
      assert m == 0x1_0000 * -q;
      assert n == -q;
    }
  }

  lemma {:induction false} SignExtendedHalf(t: int) returns (m: int)
    ensures SignExtend(LowHalf(t)) == t - 0x1_0000 * m && -0x8000 <= SignExtend(LowHalf(t)) < 0x8000
  {
    m := if LowHalf(t) < 0x8000 then t / 0x1_0000 else t / 0x1_0000 + 1;
  }

  lemma {:induction false} SignedWord(t: int) returns (n: int)
    ensures Signed(Wrap(t)) == t - 0x1_0000_0000 * n
    ensures -0x8000_0000 <= Signed(Wrap(t)) < 0x8000_0000
  {
    n := if Wrap(t) < 0x8000_0000 then t / 0x1_0000_0000 else t / 0x1_0000_0000 + 1;
  }

  lemma SameWord(x: int, y: int, d: int)
    requires d == x - y
    ensures Wrap(x) == Wrap(y) <==> Wrap(d) == 0
  {
  }

  /** Inside the branch range every operand resolves exactly. */
  lemma NearAddress(target: nat, position: nat, base: Word)
    requires target < BRANCH_RANGE && position < BRANCH_RANGE
    ensures Wrap(base + Distance(target, position) + position) == Wrap(target + base)
  {
    RelativeAddress(target, position, base);
  }

  // ----- what generated lines assemble to -----

  lemma OneEmission(line: Line, c: Cursor, env: Environment)
    requires Emits(line) && c.segment.TextSegment? && |Emissions(line, c)| == 1
    ensures var e := Emissions(line, c)[0];
      LineCode(line, c, env) == Instructions(e, c.text, env) && Next(line, c) == c.(text := c.text + Size(e))
  {
    hide Emissions, Expand, Instructions, Listing, TotalSize;
    var es := Emissions(line, c);
    assert es == [es[0]];
    ListingOne(es[0], c.text, env);
    SizeOfOne(es[0]);
  }

  lemma TwoEmissions(line: Line, c: Cursor, env: Environment)
    requires Emits(line) && c.segment.TextSegment? && |Emissions(line, c)| == 2
    ensures var e, e' := Emissions(line, c)[0], Emissions(line, c)[1];
      && LineCode(line, c, env) == Instructions(e, c.text, env) + Instructions(e', c.text + Size(e), env)
      && Next(line, c) == c.(text := c.text + Size(e) + Size(e'))
  {
    hide Emissions, Expand, Instructions, Listing, TotalSize;
    var es := Emissions(line, c);
    assert es == [es[0], es[1]];
    ListingTwo(es[0], es[1], c.text, env);
    SizeOfTwo(es[0], es[1]);
  }

  /** Lines that are one instruction take four bytes. */
  predicate Single(line: Line) {
    || line.Access? || line.OpLit? || line.Op3? || line.Copy? || line.Branch2? || line.Beqz? || line.B? || line.Call?
    || line.Sys?
  }

  lemma NextOfSingle(line: Line, c: Cursor)
    requires Single(line) && c.segment.TextSegment?
    ensures Next(line, c) == c.(text := c.text + 4)
  {
    SizeOfOne(Emissions(line, c)[0]);
    assert Emissions(line, c) == [Emissions(line, c)[0]];
  }

  lemma CodeOfAccess(op: Opcode, r: Reg, address: Address, c: Cursor, env: Environment)
    requires c.segment.TextSegment?
    ensures var line := Access(op, r, address);
      && LineCode(line, c, env)
         == [InsRRA(op, r, address.reg, Distance(AddressBase(address, env) + address.offset, c.text))]
      && Next(line, c) == c.(text := c.text + 4)
  {
    OneEmission(Access(op, r, address), c, env);
  }

  lemma CodeOfOpLit(op: Opcode, d: Reg, a: Reg, l: int, c: Cursor, env: Environment)
    requires c.segment.TextSegment? && FormOf(op) == FormRRL
    ensures var line := OpLit(op, d, a, l);
      LineCode(line, c, env) == [InsRRL(op, d, a, LowHalf(l))] && Next(line, c) == c.(text := c.text + 4)
  {
    hide FormOf;
    OneEmission(OpLit(op, d, a, l), c, env);
  }

  lemma CodeOfAddi(r: Reg, k: int, c: Cursor, env: Environment)
    requires c.segment.TextSegment?
    ensures LineCode(OpLit(ADDI, r, r, k), c, env) == [InsRRL(ADDI, r, r, LowHalf(k))]
    ensures Next(OpLit(ADDI, r, r, k), c) == c.(text := c.text + 4)
  {
    CodeOfOpLit(ADDI, r, r, k, c, env);
  }

  lemma CodeOfOp3(op: Opcode, d: Reg, a: Reg, b: Reg, c: Cursor, env: Environment)
    requires c.segment.TextSegment?
    ensures var line := Op3(op, d, a, b);
      LineCode(line, c, env) == [InsRRR(op, d, a, b)] && Next(line, c) == c.(text := c.text + 4)
  {
    OneEmission(Op3(op, d, a, b), c, env);
  }

  lemma CodeOfCopy(d: Reg, a: Reg, c: Cursor, env: Environment)
    requires c.segment.TextSegment?
    ensures LineCode(Copy(d, a), c, env) == [InsRRR(OR, d, a, ZERO)] && Next(Copy(d, a), c) == c.(text := c.text + 4)
  {
    OneEmission(Copy(d, a), c, env);
  }

  lemma CodeOfBranch2(op: Opcode, a: Reg, b: Reg, target: string, c: Cursor, env: Environment)
    requires c.segment.TextSegment?
    ensures var line := Branch2(op, a, b, target);
      && LineCode(line, c, env) == [InsRRA(op, a, b, Distance(ValueOf(target, env), c.text))]
      && Next(line, c) == c.(text := c.text + 4)
  {
    OneEmission(Branch2(op, a, b, target), c, env);
  }

  lemma CodeOfBeqz(a: Reg, target: string, c: Cursor, env: Environment)
    requires c.segment.TextSegment?
    ensures LineCode(Beqz(a, target), c, env) == [InsRRA(BEQ, a, ZERO, Distance(ValueOf(target, env), c.text))]
    ensures Next(Beqz(a, target), c) == c.(text := c.text + 4)
  {
    OneEmission(Beqz(a, target), c, env);
  }

  lemma CodeOfB(target: string, c: Cursor, env: Environment)
    requires c.segment.TextSegment?
    ensures LineCode(B(target), c, env) == [InsRRA(BEQ, ZERO, ZERO, Distance(ValueOf(target, env), c.text))]
    ensures Next(B(target), c) == c.(text := c.text + 4)
  {
    OneEmission(B(target), c, env);
  }

  lemma CodeOfCall(target: string, c: Cursor, env: Environment)
    requires c.segment.TextSegment?
    ensures LineCode(Call(target), c, env) == [InsA(JAL, ValueOf(target, env) % 0x400_0000)]
    ensures Next(Call(target), c) == c.(text := c.text + 4)
  {
    OneEmission(Call(target), c, env);
  }

  lemma CodeOfSys(c: Cursor, env: Environment)
    requires c.segment.TextSegment?
    ensures LineCode(Sys, c, env) == [InsO(SYS)] && Next(Sys, c) == c.(text := c.text + 4)
  {
    OneEmission(Sys, c, env);
  }

  lemma CodeOfLi(r: Reg, l: int, c: Cursor, env: Environment)
    requires c.segment.TextSegment?
    ensures var v := Wrap(l);
      if Upper(v) != 0 then
        LineCode(Li(r, l), c, env) == [InsRL(LUI, r, Upper(v)), InsRRL(ORI, r, r, Lower(v))]
        && Next(Li(r, l), c) == c.(text := c.text + 8)
      else
        LineCode(Li(r, l), c, env) == [InsRRL(ORI, r, ZERO, Lower(v))]
        && Next(Li(r, l), c) == c.(text := c.text + 4)
  {
    hide Emissions, Upper, Lower;
    if Upper(Wrap(l)) != 0 {
      LongLi(r, l, c);
      TwoEmissions(Li(r, l), c, env);
    } else {
      ShortLi(r, l, c);
      OneEmission(Li(r, l), c, env);
    }
  }

  lemma LongLi(r: Reg, l: int, c: Cursor)
    requires Upper(Wrap(l)) != 0
    ensures var v := Wrap(l); Emissions(Li(r, l), c) == [PutRL(LUI, r, Upper(v)), PutRRL(ORI, r, r, Lower(v))]
  {
  }

  lemma ShortLi(r: Reg, l: int, c: Cursor)
    requires Upper(Wrap(l)) == 0
    ensures Emissions(Li(r, l), c) == [PutRRL(ORI, r, ZERO, Lower(Wrap(l)))]
  {
  }

  lemma CodeOfLa(r: Reg, target: string, c: Cursor, env: Environment)
    requires c.segment.TextSegment?
    ensures var v := Wrap(ValueOf(target, env));
      LineCode(La(r, target), c, env) == [InsRL(LUI, r, Upper(v)), InsRRL(ORI, r, r, Lower(v))]
      && Next(La(r, target), c) == c.(text := c.text + 8)
  {
    OneEmission(La(r, target), c, env);
  }

  lemma CodeOfRem(d: Reg, a: Reg, b: Reg, c: Cursor, env: Environment)
    requires c.segment.TextSegment?
    ensures LineCode(Rem(d, a, b), c, env) == [InsRR(DIV, a, b), InsR(MFHI, d)]
      && Next(Rem(d, a, b), c) == c.(text := c.text + 8)
  {
    TwoEmissions(Rem(d, a, b), c, env);
  }

  // ----- generated lines -----

  lemma {:induction false} RunStore(w: World, lines: seq<Line>, c: Cursor, s: State, r: Reg, base: Reg)
    returns (t: State)
    requires lines != [] && lines[0] == Access(SW, r, Address("", 0, base))
    requires Linked(w, lines, c) && AtCursor(w, s, c)
    requires WriteWord(s.mem, s.regs[base], s.regs[r]).Some?
    ensures t == s.(mem := WriteWord(s.mem, s.regs[base], s.regs[r]).value, pc := c.text + 4)
    ensures Reaches(w, s, t) && Linked(w, lines[1..], c.(text := c.text + 4)) && c.text + 4 < BRANCH_RANGE
  {
    hide Emissions, Expand, Listing, LineCode, Next, Linked, Loaded, Decode, Reaches, ReadWord, WriteWord;
    CodeOfAccess(SW, r, Address("", 0, base), c, w.env);
    t := RunLine(w, lines, c, s, InsRRA(SW, r, base, Distance(0, c.text)));
    NearAddress(0, c.text, s.regs[base]);
  }

  lemma {:induction false} RunLoad(w: World, lines: seq<Line>, c: Cursor, s: State, r: Reg, base: Reg)
    returns (t: State)
    requires lines != [] && lines[0] == Access(LW, r, Address("", 0, base))
    requires Linked(w, lines, c) && AtCursor(w, s, c)
    requires ReadWord(s.mem, s.regs[base]).Some?
    ensures t == s.(regs := s.regs[r := ReadWord(s.mem, s.regs[base]).value], pc := c.text + 4)
    ensures Reaches(w, s, t) && Linked(w, lines[1..], c.(text := c.text + 4)) && c.text + 4 < BRANCH_RANGE
  {
    hide Emissions, Expand, Listing, LineCode, Next, Linked, Loaded, Decode, Reaches, ReadWord, WriteWord;
    CodeOfAccess(LW, r, Address("", 0, base), c, w.env);
    t := RunLine(w, lines, c, s, InsRRA(LW, r, base, Distance(0, c.text)));
    NearAddress(0, c.text, s.regs[base]);
  }

  lemma {:induction false} RunAddi(w: World, lines: seq<Line>, c: Cursor, s: State, r: Reg, k: int) returns (t: State)
    requires lines != [] && lines[0] == OpLit(ADDI, r, r, k) && -0x8000 <= k < 0x8000
    requires Linked(w, lines, c) && AtCursor(w, s, c)
    ensures t == s.(regs := s.regs[r := Wrap(s.regs[r] + k)], pc := c.text + 4)
    ensures Reaches(w, s, t) && Linked(w, lines[1..], c.(text := c.text + 4)) && c.text + 4 < BRANCH_RANGE
  {
    hide Emissions, Expand, Listing, LineCode, Next, Linked, Loaded, Decode, Reaches, ReadWord, WriteWord;
    CodeOfAddi(r, k, c, w.env);
    t := RunLine(w, lines, c, s, InsRRL(ADDI, r, r, LowHalf(k)));
    assert SignExtend(LowHalf(k)) == k;
  }

  lemma {:induction false} RunOp3(w: World, lines: seq<Line>, c: Cursor, s: State) returns (t: State)
    requires lines != [] && lines[0].Op3?
    requires Linked(w, lines, c) && AtCursor(w, s, c)
    requires Alu(lines[0].op, s.regs[lines[0].a], s.regs[lines[0].b]).Some?
    ensures var v := Alu(lines[0].op, s.regs[lines[0].a], s.regs[lines[0].b]).value;
      t == s.(regs := s.regs[lines[0].d := v], pc := c.text + 4)
    ensures Reaches(w, s, t) && Linked(w, lines[1..], c.(text := c.text + 4)) && c.text + 4 < BRANCH_RANGE
  {
    hide Emissions, Expand, Listing, LineCode, Next, Linked, Loaded, Decode, Reaches, ReadWord, WriteWord;
    CodeOfOp3(lines[0].op, lines[0].d, lines[0].a, lines[0].b, c, w.env);
    t := RunLine(w, lines, c, s, InsRRR(lines[0].op, lines[0].d, lines[0].a, lines[0].b));
  }

  lemma {:induction false} RunCopy(w: World, lines: seq<Line>, c: Cursor, s: State, d: Reg, a: Reg) returns (t: State)
    requires lines != [] && lines[0] == Copy(d, a)
    requires Linked(w, lines, c) && AtCursor(w, s, c)
    ensures t == s.(regs := s.regs[d := s.regs[a]], pc := c.text + 4)
    ensures Reaches(w, s, t) && Linked(w, lines[1..], c.(text := c.text + 4)) && c.text + 4 < BRANCH_RANGE
  {
    hide Emissions, Expand, Listing, LineCode, Next, Linked, Loaded, Decode, Reaches, ReadWord, WriteWord;
    CodeOfCopy(d, a, c, w.env);
    t := RunLine(w, lines, c, s, InsRRR(OR, d, a, ZERO));
    OrZero(s.regs[a]);
  }

  /** A branch within range goes to its target or to the next instruction. */
  lemma ExecuteBranch(s: State, op: Opcode, x: Reg, y: Reg, target: nat)
    requires op == BNE || op == BEQ
    requires target < BRANCH_RANGE && s.pc + 4 < BRANCH_RANGE
    ensures Execute(InsRRA(op, x, y, Distance(target, s.pc)), s)
      == s.(pc := if (s.regs[x] == s.regs[y]) == (op == BEQ) then target else s.pc + 4)
  {
    hide Distance;
    NearAddress(target, s.pc, 0);
  }

  /** `bne $r, $zero`, `beqz $r` and `b`. */
  lemma {:induction false} RunBranch(w: World, lines: seq<Line>, c: Cursor, s: State, r: Reg, target: string,
                                     taken: bool) returns (t: State)
    requires lines != [] && Linked(w, lines, c) && AtCursor(w, s, c)
    requires || (lines[0] == Branch2(BNE, r, ZERO, target) && taken == (s.regs[r] != 0))
             || (lines[0] == Beqz(r, target) && taken == (s.regs[r] == 0))
             || (lines[0] == B(target) && taken)
    requires target in w.env && w.env[target] < BRANCH_RANGE
    ensures t == s.(pc := if taken then w.env[target] else c.text + 4)
    ensures Reaches(w, s, t) && Linked(w, lines[1..], c.(text := c.text + 4)) && c.text + 4 < BRANCH_RANGE
  {
    hide Emissions, Expand, Listing, LineCode, Next, Linked, Loaded, Decode, Reaches, ReadWord, WriteWord, Execute, Distance;
    var d := Distance(w.env[target], c.text);
    CodeOfBranch2(BNE, r, ZERO, target, c, w.env);
    CodeOfBeqz(r, target, c, w.env);
    CodeOfB(target, c, w.env);
    var op, x := if lines[0].Branch2? then BNE else BEQ, if lines[0].B? then ZERO else r;
    t := RunLine(w, lines, c, s, InsRRA(op, x, ZERO, d));
    ExecuteBranch(s, op, x, ZERO, w.env[target]);
  }

  /** Both lengths of `li`. */
  lemma {:induction false} RunLi(w: World, lines: seq<Line>, c: Cursor, s: State, r: Reg, l: int)
    returns (t: State, c': Cursor)
    requires lines != [] && lines[0] == Li(r, l) && r != ZERO
    requires Linked(w, lines, c) && AtCursor(w, s, c)
    ensures c' == Next(lines[0], c)
    ensures c'.segment == c.segment && c'.data == c.data && c'.text < BRANCH_RANGE
    ensures t == s.(regs := s.regs[r := Wrap(l)], pc := c'.text)
    ensures Reaches(w, s, t) && Linked(w, lines[1..], c')
  {
    hide Emissions, Expand, Listing, LineCode, Linked, Loaded, Decode, Reaches, ReadWord, WriteWord;
    var v := Wrap(l);
    c' := Next(lines[0], c);
    CodeOfLi(r, l, c, w.env);
    if Upper(v) != 0 {
      t := RunHalves(w, lines, c, s, r, v);
    } else {
      t := RunShortLi(w, lines, c, s, r, v);
    }
  }

  lemma {:induction false} RunShortLi(w: World, lines: seq<Line>, c: Cursor, s: State, r: Reg, v: Word)
    returns (t: State)
    requires lines != [] && Emits(lines[0]) && Linked(w, lines, c) && AtCursor(w, s, c)
    requires LineCode(lines[0], c, w.env) == [InsRRL(ORI, r, ZERO, Lower(v))] && Upper(v) == 0
    requires Next(lines[0], c) == c.(text := c.text + 4)
    ensures t == s.(regs := s.regs[r := v], pc := c.text + 4)
    ensures Reaches(w, s, t) && Linked(w, lines[1..], c.(text := c.text + 4)) && c.text + 4 < BRANCH_RANGE
  {
    hide Emissions, Expand, Listing, LineCode, Next, Linked, Loaded, Decode, Reaches, ReadWord, WriteWord;
    t := RunLine(w, lines, c, s, InsRRL(ORI, r, ZERO, Lower(v)));
    OrZero(Lower(v));
  }

  /** `lui` and `ori` load any word. */
  lemma {:induction false} RunHalves(w: World, lines: seq<Line>, c: Cursor, s: State, r: Reg, v: Word)
    returns (t: State)
    requires lines != [] && Emits(lines[0]) && Linked(w, lines, c) && AtCursor(w, s, c) && r != ZERO
    requires LineCode(lines[0], c, w.env) == [InsRL(LUI, r, Upper(v)), InsRRL(ORI, r, r, Lower(v))]
    requires Next(lines[0], c) == c.(text := c.text + 8)
    ensures t == s.(regs := s.regs[r := v], pc := c.text + 8)
    ensures Reaches(w, s, t) && Linked(w, lines[1..], c.(text := c.text + 8)) && c.text + 8 < BRANCH_RANGE
  {
    hide Emissions, Expand, Listing, LineCode, Next, Linked, Loaded, Decode, Reaches, ReadWord, WriteWord;
    t := RunLineTwo(w, lines, c, s, InsRL(LUI, r, Upper(v)), InsRRL(ORI, r, r, Lower(v)));
    OrHalves(Upper(v), Lower(v));
  }

  lemma {:induction false} RunLa(w: World, lines: seq<Line>, c: Cursor, s: State, r: Reg, target: string)
    returns (t: State)
    requires lines != [] && lines[0] == La(r, target) && r != ZERO
    requires Linked(w, lines, c) && AtCursor(w, s, c)
    ensures target in w.env
    ensures t == s.(regs := s.regs[r := Wrap(w.env[target])], pc := c.text + 8)
    ensures Reaches(w, s, t) && Linked(w, lines[1..], c.(text := c.text + 8)) && c.text + 8 < BRANCH_RANGE
  {
    hide Execute, Listing, Loaded, Decode, Reaches, ReadWord, WriteWord;
    CodeOfLa(r, target, c, w.env);
    assert Resolvable(Emissions(lines[0], c)[0], w.env);
    t := RunHalves(w, lines, c, s, r, Wrap(w.env[target]));
  }

  lemma ExecuteRem(s: State, d: Reg, a: Reg, b: Reg)
    requires s.regs[b] != 0
    ensures var m := s.(lo := s.regs[a] / s.regs[b], hi := s.regs[a] % s.regs[b], pc := Wrap(s.pc + 4));
      && Execute(InsRR(DIV, a, b), s) == m
      && Execute(InsR(MFHI, d), m) == m.(regs := m.regs[d := m.hi], pc := Wrap(m.pc + 4))
  {
  }

  lemma {:induction false} RunRem(w: World, lines: seq<Line>, c: Cursor, s: State, d: Reg, a: Reg, b: Reg)
    returns (t: State)
    requires lines != [] && lines[0] == Rem(d, a, b)
    requires Linked(w, lines, c) && AtCursor(w, s, c) && s.regs[b] != 0
    ensures t == s.(regs := s.regs[d := s.regs[a] % s.regs[b]], pc := c.text + 8,
                    lo := s.regs[a] / s.regs[b], hi := s.regs[a] % s.regs[b])
    ensures Reaches(w, s, t) && Linked(w, lines[1..], c.(text := c.text + 8)) && c.text + 8 < BRANCH_RANGE
  {
    hide Emissions, Expand, Listing, LineCode, Next, Linked, Loaded, Decode, Reaches, ReadWord, WriteWord, Execute;
    CodeOfRem(d, a, b, c, w.env);
    ExecuteRem(s, d, a, b);
    t := RunLineTwo(w, lines, c, s, InsRR(DIV, a, b), InsR(MFHI, d));
  }
}

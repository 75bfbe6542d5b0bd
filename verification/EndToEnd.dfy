/** The whole toolchain: generate, assemble, load, run. */
module EndToEnd {
  import opened Words
  import opened Isa
  import opened Machine
  import opened Assembly
  import opened Builder
  import opened Loading
  import opened Execution
  import opened Frames
  import opened Fragments
  import opened Linking
  import opened Declarations
  import opened CodeGeneration
  import opened Correctness
  import Source

  // ----- what a program means once its labels are placed -----

  function FunctionsOf(ts: seq<TopLevel>): map<string, Source.Stmt> {
    if ts == [] then map[]
    else if ts[0].Function? && ts[0].name != Source.ENTRY then FunctionsOf(ts[1..])[ts[0].name := ts[0].body]
    else FunctionsOf(ts[1..])
  }

  function HomesOf(ts: seq<TopLevel>, uid: nat, c: Cursor): map<string, Home> {
    if ts == [] then map[]
    else
      var g := GenTopLevel(ts[0], uid);
      var rest := HomesOf(ts[1..], g.uid, End(g.lines, c));
      if ts[0].Function? && ts[0].name != Source.ENTRY then rest[ts[0].name := Home(uid, c)] else rest
  }

  function VariablesOf(ts: seq<TopLevel>, env: Environment): map<string, Word> {
    map x | x in DeclaredInProgram(ts) && x in env :: Wrap(env[x])
  }

  function MeaningOf(ts: seq<TopLevel>, env: Environment): Source.Program {
    Source.Program(FunctionsOf(ts), VariablesOf(ts, env))
  }

  /** Every variable starts at zero. */
  function InitialStore(p: Source.Program): Source.Store {
    map a | a in p.variables.Values :: 0
  }

  /** The program's first function is `entry`; declarations may stand in front of it. */
  predicate StartsWithEntry(ts: seq<TopLevel>) {
    ts != [] && if ts[0].Function? then ts[0].name == Source.ENTRY else StartsWithEntry(ts[1..])
  }

  function EntryBody(ts: seq<TopLevel>): Source.Stmt
    requires StartsWithEntry(ts)
  {
    if ts[0].Function? then ts[0].body else EntryBody(ts[1..])
  }

  const FULL_ROOM := Source.Room(SPILL_WORDS, STACK_FRAMES)

  /** A function that is not the entry, and whose name no other function has, is called by that name. */
  lemma {:induction false} FunctionMeant(ts: seq<TopLevel>, i: nat)
    requires i < |ts| && ts[i].Function? && ts[i].name != Source.ENTRY
    requires forall j | 0 <= j < |ts| && j != i :: ts[j].Function? ==> ts[j].name != ts[i].name
    ensures ts[i].name in FunctionsOf(ts) && FunctionsOf(ts)[ts[i].name] == ts[i].body
  {
    if i > 0 {
      assert forall j | 0 <= j < |ts| - 1 :: ts[1..][j] == ts[j + 1];
      FunctionMeant(ts[1..], i - 1);
    }
  }

  /** A declared variable whose label is placed lives there, and begins at zero. */
  lemma VariableMeant(ts: seq<TopLevel>, env: Environment, x: string)
    requires x in DeclaredInProgram(ts) && x in env && env[x] < 0x1_0000_0000
    ensures var p := MeaningOf(ts, env);
      && x in p.variables && p.variables[x] == env[x]
      && env[x] in InitialStore(p) && InitialStore(p)[env[x]] == 0
  {
    var p := MeaningOf(ts, env);
    assert p.variables[x] in p.variables.Values;
  }

  // ----- linking a program -----

  lemma {:induction false} HomesLinked(w: World, ts: seq<TopLevel>, uid: nat, c: Cursor)
    requires Linked(w, GenProgram(ts, uid).lines, c) && Inside(w, c)
    ensures var homes := HomesOf(ts, uid, c);
      forall f | f in FunctionsOf(ts) ::
        && f != Source.ENTRY && f in homes && Inside(w, homes[f].cursor)
        && Linked(w, GenFunction(f, FunctionsOf(ts)[f], homes[f].uid).lines, homes[f].cursor)
  {
    hide Linked, GenStmt, GenFunction, Fragment, Next;
    if ts != [] {
      var g := GenTopLevel(ts[0], uid);
      TopLevelFragment(ts[0], uid);
      var c' := Cut(w, g.lines, GenProgram(ts[1..], g.uid).lines, c);
      HomesLinked(w, ts[1..], g.uid, c');
    }
  }

  lemma TopLevelFragment(t: TopLevel, uid: nat)
    ensures Fragment(GenTopLevel(t, uid).lines)
  {
    hide Fragment;
    match t
    case Global(x, kind) => FragmentDeclare(x, kind);
    case Function(f, body) => FragmentFunction(f, body, uid);
  }

  /** Declarations emit no text, so the entry function is at address zero. */
  lemma {:induction false} EntryPlace(w: World, ts: seq<TopLevel>, uid: nat, c: Cursor) returns (uid': nat, c': Cursor)
    requires StartsWithEntry(ts) && Linked(w, GenProgram(ts, uid).lines, c) && Inside(w, c)
    ensures Inside(w, c') && c'.text == c.text
    ensures Linked(w, GenFunction(Source.ENTRY, EntryBody(ts), uid').lines, c')
  {
    hide Linked, GenStmt, GenFunction, Fragment, Next, Declare;
    var g := GenTopLevel(ts[0], uid);
    TopLevelFragment(ts[0], uid);
    var c1 := Cut(w, g.lines, GenProgram(ts[1..], g.uid).lines, c);
    match ts[0] {
      case Function(_, _) =>
        uid', c' := uid, c;
      case Global(x, kind) =>
        EndOfDeclare(x, kind, c);
        uid', c' := EntryPlace(w, ts[1..], g.uid, c1);
    }
  }

  /** The entry function, from its first instruction to its exit. */
  lemma {:induction false} RunEntry(w: World, body: Source.Stmt, uid: nat, c: Cursor, st: Source.Store, fuel: nat,
                                    s: State)
    returns (t: State)
    requires WorldLinked(w) && Inside(w, c) && Linked(w, GenFunction(Source.ENTRY, body, uid).lines, c)
    requires Ready(w, s, st, FULL_ROOM, c)
    requires Source.Exec(w.program, body, st, fuel, FULL_ROOM).Returned?
    ensures var o := Source.Exec(w.program, body, st, fuel, FULL_ROOM);
      Exited(w, s, t, o.value, o.store)
  {
    hide Linked, Fragment, GenStmt, Next, Loaded, ReadWord, Reaches, WorldLinked;
    var code := GenStmt(body, uid, true).lines;
    LabelHere(w, Source.ENTRY, [Copy(FP, SP)] + (code + [Ret]), c);
    PlainMoves(FP, SP);
    FragmentPlain([Copy(FP, SP)]);
    var c1 := Cut(w, [Copy(FP, SP)], code + [Ret], c);
    var m := RunCopy(w, [Copy(FP, SP)], c, s, FP, SP);
    NextOfSingle(Copy(FP, SP), c);
    EndOne(Copy(FP, SP), c);
    FragmentStmt(body, uid, true);
    var c2 := Cut(w, code, [Ret], c1);
    t := RunStmt(w, body, uid, true, c1, st, fuel, FULL_ROOM, m);
    ReachesTrans(w, s, m, t);
  }

  // ----- the initial state -----

  /** Every declared variable has a word of its own in the data segment, which is zero. */
  lemma {:induction false} VariablesPlaced(w: World, g: Segments, ts: seq<TopLevel>, uid: nat, x: string)
    returns (i: nat)
    requires x in DeclaredInProgram(ts)
    requires var lines := GenProgram(ts, uid).lines;
      && Linked(w, lines, ORIGIN) && forall s | s in Slots(lines, ORIGIN) :: Holds(g, s, w.env)
    ensures var lines := GenProgram(ts, uid).lines;
      && DeclaresAt(lines, x, i) && x in w.env
      && w.env[x] == DATA_SEGMENT_OFFSET + DataBefore(lines, i)
      && DataBefore(lines, i + 4) == DataBefore(lines, i) + 4 <= End(lines, ORIGIN).data
      && WordIn(g, w.env[x]) == Some(0)
  {
    hide Linked, Holds, Slots, WordIn;
    var lines := GenProgram(ts, uid).lines;
    ProgramDeclares(ts, uid, x);
    i :| DeclaresAt(lines, x, i);
    Declarations.Place(w, g, lines, x, i);
  }

  lemma VariablesApart(w: World, g: Segments, ts: seq<TopLevel>, uid: nat, x: string, y: string)
    requires x in DeclaredInProgram(ts) && y in DeclaredInProgram(ts) && x != y
    requires var lines := GenProgram(ts, uid).lines;
      && Linked(w, lines, ORIGIN) && forall s | s in Slots(lines, ORIGIN) :: Holds(g, s, w.env)
    ensures x in w.env && y in w.env && (w.env[x] + 4 <= w.env[y] || w.env[y] + 4 <= w.env[x])
  {
    hide Linked, Holds, Slots, WordIn, GenProgram, DeclaredInProgram, DataBefore;
    var i := VariablesPlaced(w, g, ts, uid, x);
    var j := VariablesPlaced(w, g, ts, uid, y);
    var lines := GenProgram(ts, uid).lines;
    assert i != j;
    if i < j {
      Declarations.Apart(lines, x, i, y, j);
    } else {
      Declarations.Apart(lines, y, j, x, i);
    }
  }

  /** A variable's word, loaded, is zero and between text and stack. */
  lemma {:induction false} VariableReads(w: World, g: Segments, ts: seq<TopLevel>, uid: nat, stack: seq<Byte>,
                                         global: seq<Byte>, x: string)
    requires var lines := GenProgram(ts, uid).lines;
      && Linked(w, lines, ORIGIN) && (forall s | s in Slots(lines, ORIGIN) :: Holds(g, s, w.env))
      && DATA_SEGMENT_OFFSET + End(lines, ORIGIN).data <= STACK_OFFSET
    requires |g.text| < DATA_SEGMENT_OFFSET && DATA_SEGMENT_OFFSET + |g.data| < END
    requires |FileOf(g)| >= HEADER_SIZE && x in DeclaredInProgram(ts)
    ensures x in w.env && DATA_SEGMENT_OFFSET <= w.env[x] && w.env[x] + 4 <= STACK_OFFSET
    ensures ReadWord(Opened(FileOf(g), stack, global), w.env[x]) == Some(0)
  {
    hide Linked, Holds, Slots, WordIn, GenProgram, DeclaredInProgram, DataBefore, Opened, FileOf, ReadWord, End;
    var i := VariablesPlaced(w, g, ts, uid, x);
    LayoutAgrees(g, stack, global, w.env[x]);
  }

  /** The start state is ready: variables are zero and separate, both stacks are empty. */
  lemma {:induction false} StartsReady(w: World, g: Segments, ts: seq<TopLevel>, uid: nat, stack: seq<Byte>,
                                       global: seq<Byte>, hi: Word, lo: Word, c: Cursor)
    requires var lines := GenProgram(ts, uid).lines;
      && Linked(w, lines, ORIGIN) && (forall s | s in Slots(lines, ORIGIN) :: Holds(g, s, w.env))
      && DATA_SEGMENT_OFFSET + End(lines, ORIGIN).data <= STACK_OFFSET
    requires w.program == MeaningOf(ts, w.env)
    requires |g.text| < DATA_SEGMENT_OFFSET && DATA_SEGMENT_OFFSET + |g.data| < END
    requires |stack| == STACK_SIZE && |global| == GLOBAL_SIZE
    requires |FileOf(g)| >= HEADER_SIZE && Loaded(w.code, Opened(FileOf(g), stack, global))
    requires Inside(w, c) && c.text == 0
    ensures Ready(w, StartState(g, stack, global, hi, lo), InitialStore(w.program), FULL_ROOM, c)
    ensures forall x | x in w.program.variables :: x in w.env && w.env[x] == w.program.variables[x]
  {
    hide Linked, Holds, Slots, WordIn, GenProgram, DeclaredInProgram, DataBefore, Loaded, Opened, FileOf, ReadWord, End,
      FunctionsOf;
    var m := Opened(FileOf(g), stack, global);
    var st := InitialStore(w.program);
    var vars := w.program.variables;
    OpenedImage(g, stack, global);
    forall x | x in vars
      ensures x in w.env && w.env[x] == vars[x]
      ensures DATA_SEGMENT_OFFSET <= vars[x] && vars[x] + 4 <= STACK_OFFSET && ReadWord(m, vars[x]) == Some(0)
    {
      VariableReads(w, g, ts, uid, stack, global, x);
    }
    assert VariablesHeld(m, st);
    forall a, b | a in st && b in st && a != b ensures a + 4 <= b || b + 4 <= a {
      var x :| x in vars && vars[x] == a;
      var y :| y in vars && vars[y] == b;
      VariablesApart(w, g, ts, uid, x, y);
    }
    assert Separated(st);
  }

  /** The state a run starts in. */
  function StartState(g: Segments, stack: seq<Byte>, global: seq<Byte>, hi: Word, lo: Word): State
    requires |FileOf(g)| >= HEADER_SIZE
  {
    ResetState(Opened(FileOf(g), stack, global), hi, lo)
  }

  // ----- the theorem -----

  /** What has to hold of an image of a program, and of the machine's buffers, for it to run. */
  ghost predicate Installed(ts: seq<TopLevel>, uid: nat, g: Segments, g': Segments, stack: seq<Byte>,
                            global: seq<Byte>) {
    var lines := GenProgram(ts, uid).lines;
    && StartsWithEntry(ts)
    && Realises(g, lines) && Distinct(Definitions(lines, ORIGIN, [])) && Covers(g, g')
    && End(lines, ORIGIN).text < BRANCH_RANGE
    && DATA_SEGMENT_OFFSET + End(lines, ORIGIN).data <= STACK_OFFSET
    && DATA_SEGMENT_OFFSET + |g'.data| < END
    && |stack| == STACK_SIZE && |global| == GLOBAL_SIZE
  }

  /** Loaded and reset, the machine stands in front of the entry function of a linked program. */
  lemma {:induction false} ProgramStarts(ts: seq<TopLevel>, uid: nat, g: Segments, g': Segments, stack: seq<Byte>,
                                         global: seq<Byte>, hi: Word, lo: Word)
    returns (w: World, uid': nat, c: Cursor)
    requires Installed(ts, uid, g, g', stack, global)
    ensures |FileOf(g')| >= HEADER_SIZE && w.program == MeaningOf(ts, Labels(GenProgram(ts, uid).lines))
    ensures WorldLinked(w) && Inside(w, c) && c.text == 0
    ensures forall x | x in DeclaredInProgram(ts) :: x in w.program.variables
    ensures Linked(w, GenFunction(Source.ENTRY, EntryBody(ts), uid').lines, c)
    ensures Ready(w, StartState(g', stack, global, hi, lo), InitialStore(w.program), FULL_ROOM, c)
  {
    hide Holds, Linked, Loaded, Opened, FileOf, GenProgram, Decode, ReadWord, WordIn, DeclaredInProgram, Slots, DataBefore;
    var lines := GenProgram(ts, uid).lines;
    var env := Labels(lines);
    var code := TextListing(lines, ORIGIN, env);
    w := World(MeaningOf(ts, env), code, env, HomesOf(ts, uid, ORIGIN));
    ProgramLinked(ts, uid, g, w);
    forall s | s in Slots(lines, ORIGIN) ensures Holds(g', s, env) {
      HoldsInLonger(g, g', s, env);
    }
    forall x | x in DeclaredInProgram(ts) ensures x in env {
      var i := VariablesPlaced(w, g', ts, uid, x);
    }
    LoadedImage(g', lines, code, stack, global);
    uid', c := EntryPlace(w, ts, uid, ORIGIN);
    StartsReady(w, g', ts, uid, stack, global, hi, lo, c);
    HomesLinked(w, ts, uid, ORIGIN);
  }

  /** A run that has stopped, all of whose states were live before, never faults, and `$zero` is zero in
      all of it. */
  ghost predicate Clean(s: State) {
    forall k: nat :: RunFor(s, k).regs[ZERO] == 0 && !RunFor(s, k).fault
  }

  lemma {:induction false} StoppedClean(w: World, s: State, t: State, n: nat)
    requires ReachesIn(w, s, t, n) && t.shouldExit && !t.fault && t.regs[ZERO] == 0
    ensures Clean(s)
  {
    hide RunFor, Loaded;
    forall k: nat ensures RunFor(s, k).regs[ZERO] == 0 && !RunFor(s, k).fault {
      if k >= n {
        RunForSum(s, n, k - n);
        HaltedStays(t, k - n);
      }
    }
  }

  /** Generating, assembling, loading and running a program whose entry body returns v stops the machine
      with the exit code v (read as signed) and the variables as the source run leaves them, whatever
      the unused instruction bits, the scratch buffers and the division registers held; on the way nothing
      faults and `$zero` is zero in every state. */
  lemma {:induction false} ProgramRuns(ts: seq<TopLevel>, uid: nat, g: Segments, g': Segments, stack: seq<Byte>,
                                       global: seq<Byte>, hi: Word, lo: Word, fuel: nat) returns (n: nat, t: State)
    requires Installed(ts, uid, g, g', stack, global)
    requires var p := MeaningOf(ts, Labels(GenProgram(ts, uid).lines));
      Source.Exec(p, EntryBody(ts), InitialStore(p), fuel, FULL_ROOM).Returned?
    ensures |FileOf(g')| >= HEADER_SIZE
    ensures var p := MeaningOf(ts, Labels(GenProgram(ts, uid).lines));
      var o := Source.Exec(p, EntryBody(ts), InitialStore(p), fuel, FULL_ROOM);
      && t == RunFor(StartState(g', stack, global, hi, lo), n)
      && t.shouldExit && !t.fault && t.exitCode == Signed(o.value)
      && VariablesHeld(t.mem, o.store)
    ensures Clean(StartState(g', stack, global, hi, lo))
  {
    assert StartsWithEntry(ts);
    hide Installed, Linked, Loaded, GenProgram, ReadWord, MeaningOf, InitialStore, StartState, FileOf, Ready, WorldLinked,
      VariablesHeld, Source.Exec;
    var w, uid', c := ProgramStarts(ts, uid, g, g', stack, global, hi, lo);
    var s := StartState(g', stack, global, hi, lo);
    t := RunEntry(w, EntryBody(ts), uid', c, InitialStore(w.program), fuel, s);
    n :| ReachesIn(w, s, t, n);
    StoppedClean(w, s, t, n);
  }

  lemma ProgramLinked(ts: seq<TopLevel>, uid: nat, g: Segments, w: World)
    requires var lines := GenProgram(ts, uid).lines;
      && Realises(g, lines) && Distinct(Definitions(lines, ORIGIN, []))
      && w.env == Labels(lines) && w.code == TextListing(lines, ORIGIN, w.env)
    ensures var lines := GenProgram(ts, uid).lines;
      Proper(lines, ORIGIN) && Linked(w, lines, ORIGIN) && Inside(w, ORIGIN)
  {
    hide Linked, GenProgram, WordIn, ByteIn, Decodes;
    var lines := GenProgram(ts, uid).lines;
    FragmentProgram(ts, uid);
    assert Proper(lines, ORIGIN);
    TableAgrees(Definitions(lines, ORIGIN, []));
    assert w.code == [] + TextListing(lines, ORIGIN, w.env);
    LinkLines(w, lines, ORIGIN, [], []);
  }
}

/** Nothing in the machine keeps `$zero` at zero; generated code does. */
module ZeroRegister {
  import opened Words
  import opened Isa
  import opened Machine
  import opened Assembly
  import opened Execution
  import opened Fragments
  import opened Linking
  import opened CodeGeneration
  import opened Builder
  import opened Frames
  import opened EndToEnd
  import opened EndlessRuns
  import Source

  /** The one register an instruction writes, if any. */
  function Destination(i: Instr): Option<Reg> {
    match i
    case InsRRR(_, d, _, _) => Some(d)
    case InsRRL(_, d, _, _) => Some(d)
    case InsRRA(op, r, _, _) => if op == LW || op == LB then Some(r) else None
    case InsRR(op, _, b) => if op == JALR then Some(b) else None
    case InsRL(_, d, _) => Some(d)
    case InsRA(op, _, _) => if op == BGEZAL then Some(RA) else None
    case InsR(op, r) => if op == JR then None else Some(r)
    case InsA(op, _) => if op == JAL then Some(RA) else None
    case InsO(_) => None
  }

  lemma WritesDestination(i: Instr, s: State, r: Reg)
    requires Destination(i) != Some(r)
    ensures Execute(i, s).regs[r] == s.regs[r]
  {
    hide Execute;
    if i.InsRRA? {
      WritesLoaded(i, s, r);
    } else if i.InsRR? || i.InsRA? {
      WritesLink(i, s, r);
    } else {
      WritesResult(i, s, r);
    }
  }

  lemma WritesResult(i: Instr, s: State, r: Reg)
    requires Destination(i) != Some(r) && !i.InsRRA? && !i.InsRR? && !i.InsRA?
    ensures Execute(i, s).regs[r] == s.regs[r]
  {
    hide Alu, AluImmediate, Wrap;
  }

  lemma WritesLink(i: Instr, s: State, r: Reg)
    requires Destination(i) != Some(r) && (i.InsRR? || i.InsRA?)
    ensures Execute(i, s).regs[r] == s.regs[r]
  {
    hide Wrap, Product;
  }

  lemma WritesLoaded(i: Instr, s: State, r: Reg)
    requires i.InsRRA? && Destination(i) != Some(r)
    ensures Execute(i, s).regs[r] == s.regs[r]
  {
    hide Alu, AluImmediate, ReadWord, WriteWord, ReadByte, WriteByte, Wrap;
  }

  /** The machine itself lets `$zero` be written. */
  lemma ZeroCanBeWritten(s: State)
    ensures Execute(InsRL(LUI, ZERO, 1), s).regs[ZERO] == 0x1_0000
  {
  }

  // ----- generated code never does -----

  predicate Spare(code: seq<Instr>) {
    forall i | 0 <= i < |code| :: Destination(code[i]) != Some(ZERO)
  }

  lemma EmissionSpares(e: Emission, location: nat, env: Environment)
    requires PutSpares(e)
    ensures Spare(Instructions(e, location, env))
  {
  }

  lemma {:induction false} ListingSpares(es: seq<Emission>, location: nat, env: Environment)
    requires forall i | 0 <= i < |es| :: PutSpares(es[i])
    ensures Spare(Listing(es, location, env))
  {
    hide PutSpares, Instructions, Destination, Size;
    if es != [] {
      EmissionSpares(es[0], location, env);
      ListingSpares(es[1..], location + Size(es[0]), env);
    }
  }

  lemma {:induction false} TextSpares(lines: seq<Line>, c: Cursor, env: Environment)
    requires Acceptable(lines) && Proper(lines, c)
    ensures Spare(TextListing(lines, c, env))
  {
    hide WellFormed, PutSpares, Expand, Listing, Destination, Next;
    if lines != [] {
      TextSpares(lines[1..], Next(lines[0], c), env);
      if InText(lines[0], c) {
        ListingSpares(Expand(lines[0]), c.text, env);
      }
    }
  }

  /** `$zero` is zero in every state of the run of an accepted program whose source run returns, or never
      ends and is never undefined. */
  lemma {:induction false} DefinedRunsKeepZero(ts: seq<TopLevel>, uid: nat, g: Segments, g': Segments, stack: seq<Byte>,
                                               global: seq<Byte>, hi: Word, lo: Word, fuel: nat, k: nat)
    requires Installed(ts, uid, g, g', stack, global) && StartsWithEntry(ts)
    requires var p := MeaningOf(ts, Labels(GenProgram(ts, uid).lines));
      || Source.Exec(p, EntryBody(ts), InitialStore(p), fuel, FULL_ROOM).Returned?
      || forall f: nat :: StarvesAt(ts, uid, f)
    ensures |FileOf(g')| >= HEADER_SIZE && RunFor(StartState(g', stack, global, hi, lo), k).regs[ZERO] == 0
  {
    hide Installed, GenProgram, MeaningOf, InitialStore, Source.Exec, StartState, FileOf, RunFor, VariablesHeld,
      StarvesAt, StartsWithEntry;
    if forall f: nat :: StarvesAt(ts, uid, f) {
      EndlessProgram(ts, uid, g, g', stack, global, hi, lo, k);
    } else {
      var n, t := ProgramRuns(ts, uid, g, g', stack, global, hi, lo, fuel);
    }
  }

  /** Executing the listing, and nothing else. */
  predicate OnListing(code: seq<Instr>, s: State) {
    Loaded(code, s.mem) && s.pc % 4 == 0
  }

  /** `$zero` is zero throughout every run of generated code, ending or not, as long as the text has not
      been overwritten and execution stays on its instructions. */
  lemma ZeroStays(ts: seq<TopLevel>, uid: nat, env: Environment, s: State, n: nat)
    requires var code := TextListing(GenProgram(ts, uid).lines, ORIGIN, env);
      forall k: nat | k < n :: OnListing(code, RunFor(s, k))
    requires s.regs[ZERO] == 0
    ensures RunFor(s, n).regs[ZERO] == 0
  {
    hide TextListing, GenProgram, RunFor;
    FragmentProgram(ts, uid);
    TextSpares(GenProgram(ts, uid).lines, ORIGIN, env);
    ZeroStaysOn(TextListing(GenProgram(ts, uid).lines, ORIGIN, env), s, n);
  }

  lemma {:induction false} ZeroStaysOn(code: seq<Instr>, s: State, n: nat)
    requires Spare(code) && s.regs[ZERO] == 0 && forall k: nat | k < n :: OnListing(code, RunFor(s, k))
    ensures RunFor(s, n).regs[ZERO] == 0
    decreases n
  {
    hide OnListing, Spare, Step;
    if n > 0 {
      ZeroStaysOn(code, s, n - 1);
      RunForSum(s, n - 1, 1);
      var m := RunFor(s, n - 1);
      assert RunFor(m, 1) == Tick(m) by { assert RunFor(Tick(m), 0) == Tick(m); }
      assert OnListing(code, m);
      if !Halted(m) {
        StepOnListing(code, m);
      }
    }
  }

  lemma StepOnListing(code: seq<Instr>, s: State)
    requires Spare(code) && OnListing(code, s) && !Halted(s) && s.regs[ZERO] == 0
    ensures Step(s).regs[ZERO] == 0
  {
    hide Decode, ReadWord, Execute, Destination;
    var i := s.pc / 4;
    assert s.pc == 4 * i;
    assert Destination(code[i]) != Some(ZERO);
    WritesDestination(code[i], s, ZERO);
  }
}

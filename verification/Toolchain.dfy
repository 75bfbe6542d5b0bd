/** All stages in a row, as objects: compile, assemble, load, run. */
module Toolchain {
  import opened Words
  import opened Isa
  import opened Machine
  import opened Assembly
  import opened Builder
  import opened Assembler
  import opened Loading
  import opened Execution
  import opened Frames
  import opened Fragments
  import opened Linking
  import opened CodeGeneration
  import opened Compiling
  import opened Naming
  import opened EndToEnd
  import opened Virtual
  import Source

  /** Text within reach of relative addresses, data below the stack. */
  predicate FitsMachine(lines: seq<Line>) {
    End(lines, ORIGIN).text < BRANCH_RANGE && DATA_SEGMENT_OFFSET + End(lines, ORIGIN).data <= STACK_OFFSET
  }

  /** The source run of the entry body from zeroed variables. */
  function SourceRun(ts: seq<TopLevel>, fuel: nat): Source.Outcome
    requires StartsWithEntry(ts)
  {
    var p := MeaningOf(ts, Labels(GenProgram(ts, 0).lines));
    Source.Exec(p, EntryBody(ts), InitialStore(p), fuel, FULL_ROOM)
  }

  lemma GeneratedIsAcceptable(ts: seq<TopLevel>, uid: nat)
    ensures var lines := GenProgram(ts, uid).lines;
      Proper(lines, ORIGIN) && forall i | 0 <= i < |lines| :: WellFormed(lines[i]) && Sensible(lines[i])
  {
    hide GenProgram, WellFormed;
    FragmentProgram(ts, uid);
  }

  lemma MachineFits(lines: seq<Line>, g: Segments)
    requires FitsMachine(lines)
    ensures Fits(PaddedEnd(lines))
    ensures Realises(g, lines) ==> Covers(g, PaddedData(g)) && DATA_SEGMENT_OFFSET + |PaddedData(g).data| < END
  {
  }

  /** A well-named program whose source run returns v runs to the exit code v, its variables in memory
      as the source run leaves them; a program that is not well named is rejected by the assembler. */
  method CompileAndRun(ts: seq<TopLevel>, ghost fuel: nat) returns (accepted: bool, vm: VirtualMachine)
    requires StartsWithEntry(ts) && FitsMachine(GenProgram(ts, 0).lines)
    requires WellNamed(ts, 0) ==> SourceRun(ts, fuel).Returned?
    ensures vm.Valid()
    ensures accepted <==> WellNamed(ts, 0)
    ensures accepted ==>
      var o := SourceRun(ts, fuel);
      vm.shouldExit && vm.exitCode == Signed(o.value) && VariablesHeld(vm.program.Mem(), o.store)
  {
    hide GenProgram, WellNamed, Realises, Slots, Definitions, Distinct, End, PaddedEnd, Fits, Reopened, FileOf, ReadWord,
      Source.Exec, MeaningOf, InitialStore, Step;
    ghost var lines := GenProgram(ts, 0).lines;
    ProgramAssembles(ts, 0);
    GeneratedIsAcceptable(ts, 0);
    vm := new VirtualMachine();
    var compiler := new Compiler();
    compiler.CodeGeneration(ts);
    assert compiler.asmFile == lines;
    var assembler := new Assembler();
    MachineFits(lines, Segments([], []));
    var outcome, g := assembler.Assemble(compiler.asmFile);
    accepted := outcome.Assembled?;
    if accepted {
      MachineFits(lines, g);
      ghost var stack, global, hi, lo := vm.program.stack[..], vm.program.global[..], vm.hi, vm.lo;
      ghost var n, t := ProgramRuns(ts, 0, g, PaddedData(g), stack, global, hi, lo, fuel);
      vm.LoadProgram(outcome.file);
      vm.Reset();
      var ok := vm.Run(n);
    }
  }
}

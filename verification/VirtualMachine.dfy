/** The virtual machine as the program runs it: mutable registers and buffers, one method an
    instruction group, and the run loop. Each method is tied to the transition function. */
module Virtual {
  import opened Words
  import opened Isa
  import opened Machine
  import opened Builder
  import opened Loading

  class Program {
    var image: seq<Byte>
    var textLength: Word
    const stack: array<Byte>
    const global: array<Byte>

    predicate Valid()
      reads this
    {
      stack.Length == STACK_SIZE && global.Length == GLOBAL_SIZE && stack != global
    }

    function Mem(): Memory
      reads this, stack, global
    {
      Memory(image, textLength, stack[..], global[..])
    }

    /** The two scratch buffers come uninitialised. */
    constructor ()
      ensures Valid() && fresh(stack) && fresh(global) && image == []
    {
      image, textLength := [], 0;
      stack := new Byte[STACK_SIZE];
      global := new Byte[GLOBAL_SIZE];
    }

    method Open(file: seq<Byte>)
      requires |file| >= HEADER_SIZE
      modifies this
      ensures Mem() == Reopened(old(image), file, old(stack[..]), old(global[..]))
    {
      textLength := WordOf(file[4..8]);
      var dataLength := WordOf(file[12..16]);
      image := ReadInto(image, Wrap(textLength + dataLength), file[HEADER_SIZE..]);
    }

    method GetWord(i: Word) returns (w: Option<Word>)
      requires Valid()
      ensures w == ReadWord(Mem(), i)
    {
      if i < DATA_SEGMENT_OFFSET {
        w := WordAt(image, i);
      } else if i < STACK_OFFSET {
        w := WordAt(image, i - DATA_SEGMENT_OFFSET + textLength);
      } else if i < GLOBAL_OFFSET {
        w := WordAt(stack[..], i - STACK_OFFSET);
      } else {
        w := WordAt(global[..], i - GLOBAL_OFFSET);
      }
    }

    static function WordAt(bytes: seq<Byte>, i: int): Option<Word> {
      if 0 <= i && i + 4 <= |bytes| then Some(WordOf(bytes[i..i + 4])) else None
    }

    method StoreBytes(buffer: array<Byte>, i: nat, w: Word)
      requires i + 4 <= buffer.Length
      modifies buffer
      ensures buffer[..] == Splice(old(buffer[..]), i, BytesOf(w))
    {
      var bytes := BytesOf(w);
      buffer[i], buffer[i + 1], buffer[i + 2], buffer[i + 3] := bytes[0], bytes[1], bytes[2], bytes[3];
      hide BytesOf;
      assert buffer[..] == Splice(old(buffer[..]), i, bytes);
    }

    /** Assignment through the reference `getWord` returns. */
    method PutWord(i: Word, w: Word) returns (ok: bool)
      requires Valid()
      modifies this, stack, global
      ensures Valid()
      ensures match WriteWord(old(Mem()), i, w)
        case Some(m) => ok && Mem() == m
        case None => !ok && Mem() == old(Mem())
    {
      hide BytesOf;
      var p := Locate(textLength, i);
      match p.buffer {
        case Image =>
          ok := 0 <= p.index && p.index + 4 <= |image|;
          if ok {
            image := Splice(image, p.index, BytesOf(w));
          }
        case Stack =>
          ok := 0 <= p.index && p.index + 4 <= stack.Length;
          if ok {
            StoreBytes(stack, p.index, w);
          }
        case Global =>
          ok := 0 <= p.index && p.index + 4 <= global.Length;
          if ok {
            StoreBytes(global, p.index, w);
          }
      }
    }

    method GetByte(i: Word) returns (b: Option<Byte>)
      requires Valid()
      ensures b == ReadByte(Mem(), i)
    {
      var p := Locate(textLength, i);
      var bytes := match p.buffer case Image => image case Stack => stack[..] case Global => global[..];
      b := if 0 <= p.index < |bytes| then Some(bytes[p.index]) else None;
    }

    method PutByte(i: Word, v: Byte) returns (ok: bool)
      requires Valid()
      modifies this, stack, global
      ensures Valid()
      ensures match WriteByte(old(Mem()), i, v)
        case Some(m) => ok && Mem() == m
        case None => !ok && Mem() == old(Mem())
    {
      var p := Locate(textLength, i);
      match p.buffer {
        case Image =>
          ok := 0 <= p.index < |image|;
          if ok {
            image := image[p.index := v];
          }
        case Stack =>
          ok := 0 <= p.index < stack.Length;
          if ok {
            stack[p.index] := v;
          }
        case Global =>
          ok := 0 <= p.index < global.Length;
          if ok {
            global[p.index] := v;
          }
      }
    }
  }

  class VirtualMachine {
    const program: Program
    const registers: array<Word>
    var pc: Word
    var hi: Word
    var lo: Word
    var shouldExit: bool
    var exitCode: int

    ghost function Repr(): set<object> {
      {this, program, program.stack, program.global, registers}
    }

    ghost predicate Valid()
      reads this, program
    {
      && program.Valid() && registers.Length == 32
      && registers as object != program.stack as object && registers as object != program.global as object
    }

    /** The state of the transition function; a fault never becomes part of the object. */
    ghost function View(): State
      requires Valid()
      reads this, program, Repr()
    {
      State(registers[..], pc, hi, lo, program.Mem(), shouldExit, exitCode, false)
    }

    constructor ()
      ensures Valid() && fresh(Repr()) && program.image == []
    {
      program := new Program();
      registers := new Word[32](_ => 0);
      pc, hi, lo, shouldExit, exitCode := 0, 0, 0, false, 0;
    }

    method AdvancePc()
      modifies this`pc
      ensures pc == Wrap(old(pc) + INSTRUCTION_SIZE)
    {
      pc := Wrap(pc + INSTRUCTION_SIZE);
    }

    /** A result for a register, if the operation is defined. */
    method SetRegister(d: Reg, v: Option<Word>) returns (ok: bool)
      requires Valid()
      modifies this`pc, registers
      ensures Valid() && ok == v.Some?
      ensures View() == if ok then Machine.SetRegister(old(View()), d, v) else old(View())
    {
      ok := v.Some?;
      if ok {
        registers[d] := v.value;
        AdvancePc();
        assert registers[..] == old(registers[..])[d := v.value];
      }
    }

    method JumpIf(taken: bool, off: int)
      requires Valid()
      modifies this`pc
      ensures View() == Machine.JumpIf(old(View()), taken, off)
    {
      if taken {
        pc := Wrap(off + pc);
      } else {
        AdvancePc();
      }
    }

    method Link(r: Reg)
      requires Valid()
      modifies registers
      ensures Valid() && View() == Machine.Link(old(View()), r)
    {
      registers[r] := Wrap(pc + INSTRUCTION_SIZE);
      assert registers[..] == old(registers[..])[r := Wrap(pc + INSTRUCTION_SIZE)];
    }

    /** Loads, stores and two-register branches. */
    method ExecuteRRA(op: Opcode, r: Reg, b: Reg, off: int) returns (ok: bool)
      requires Valid() && FormOf(op) == FormRRA
      modifies Repr()
      ensures Valid() && var t := Execute(InsRRA(op, r, b, off), old(View()));
        ok == !t.fault && View() == if ok then t else old(View())
    {
      hide ReadWord, WriteWord, ReadByte, WriteByte;
      ok := true;
      var address := Wrap(registers[b] + off + pc);
      match op {
        case BEQ => JumpIf(registers[r] == registers[b], off);
        case BNE => JumpIf(registers[r] != registers[b], off);
        case LW =>
          var w := program.GetWord(address);
          ok := SetRegister(r, w);
        case LB =>
          var v := program.GetByte(address);
          ok := SetRegister(r, match v case Some(x) => Some(x) case None => None);
        case SW =>
          ok := program.PutWord(address, registers[r]);
          if ok {
            AdvancePc();
          }
        case SB =>
          ok := program.PutByte(address, registers[r] % 0x100);
          if ok {
            AdvancePc();
          }
      }
    }

    method Divide(x: Word, y: Word) returns (ok: bool)
      requires Valid()
      modifies this`lo, this`hi, this`pc
      ensures Valid() && ok == (y != 0)
      ensures View() == if ok then Advance(old(View()).(lo := x / y, hi := x % y)) else old(View())
    {
      ok := y != 0;
      if ok {
        lo := x / y;
        hi := x % y;
        AdvancePc();
      }
    }

    /** Division, multiplication and the register jump that links. */
    method ExecuteRR(op: Opcode, a: Reg, b: Reg) returns (ok: bool)
      requires Valid() && FormOf(op) == FormRR
      modifies this, registers
      ensures Valid() && var t := Execute(InsRR(op, a, b), old(View()));
        ok == !t.fault && View() == if ok then t else old(View())
    {
      ok := true;
      match op {
        case DIV | DIVU =>
          ok := Divide(registers[a], registers[b]);
        case MULT | MULTU =>
          var product := Product(registers[a], registers[b]);
          lo := product.0;
          hi := product.1;
          AdvancePc();
        case JALR =>
          Link(b);
          pc := registers[a];
      }
    }

    /** One-register branches compare unsigned registers with zero. */
    method ExecuteRA(op: Opcode, r: Reg, off: int) returns (ok: bool)
      requires Valid() && FormOf(op) == FormRA
      modifies this, registers
      ensures Valid() && var t := Execute(InsRA(op, r, off), old(View()));
        ok == !t.fault && View() == if ok then t else old(View())
    {
      ok := true;
      match op {
        case BGEZ => JumpIf(registers[r] >= 0, off);
        case BGEZAL =>
          Link(RA);
          JumpIf(true, off);
        case BGTZ => JumpIf(registers[r] > 0, off);
        case BLEZ => JumpIf(registers[r] <= 0, off);
        case BLTZ => JumpIf(false, off);
        case BLTZAL =>
          AdvancePc();
          AdvancePc();
      }
    }

    method ExecuteR(op: Opcode, r: Reg) returns (ok: bool)
      requires Valid() && FormOf(op) == FormR
      modifies this`pc, registers
      ensures Valid() && var t := Execute(InsR(op, r), old(View()));
        ok == !t.fault && View() == if ok then t else old(View())
    {
      RegisterOpcodes(op);
      hide FormOf;
      ok := true;
      if op == JR {
        pc := registers[r];
      } else {
        ok := SetRegister(r, Some(if op == MFHI then hi else lo));
      }
    }

    method ExecuteA(op: Opcode, target: nat) returns (ok: bool)
      requires Valid() && FormOf(op) == FormA
      modifies this`pc, registers
      ensures Valid() && var t := Execute(InsA(op, target), old(View()));
        ok == !t.fault && View() == if ok then t else old(View())
    {
      ok := true;
      if op == JAL {
        Link(RA);
      }
      pc := Wrap(target);
    }

    method ExecuteO(op: Opcode) returns (ok: bool)
      requires Valid() && FormOf(op) == FormO
      modifies this
      ensures Valid() && var t := Execute(InsO(op), old(View()));
        ok == !t.fault && View() == if ok then t else old(View())
    {
      ok := SystemCall();
      if ok {
        AdvancePc();
      }
    }

    /** Only EXIT; `exitCode` is the register read as a signed number. */
    method SystemCall() returns (ok: bool)
      requires Valid()
      modifies this`shouldExit, this`exitCode
      ensures Valid() && ok == (registers[V0] == EXIT)
      ensures View() == if ok then old(View()).(shouldExit := true, exitCode := Signed(registers[A0])) else old(View())
    {
      ok := registers[V0] == EXIT;
      if ok {
        shouldExit := true;
        exitCode := Signed(registers[A0]);
      }
    }

    /** One decoded instruction; not `ok` when it throws or is undefined. */
    method ExecuteInstruction(word: Word) returns (ok: bool)
      requires Valid()
      modifies Repr()
      ensures Valid()
      ensures match Decode(word)
        case Some(i) =>
          var t := Execute(i, old(View()));
          ok == !t.fault && View() == if ok then t else old(View())
        case None => !ok && View() == old(View())
    {
      hide OpcodeAt, OpcodeField, Register0, Register1, Register2, Immediate, DirectAddressAbsolute, Execute, FormOf, Alu,
        AluImmediate;
      var decoded := Decode(word);
      match decoded {
        case None => ok := false;
        case Some(i) =>
          DecodedForm(word);
          match i {
            case InsRRR(op, d, a, b) =>
              ExecuteIsAlu(i, View());
              ok := SetRegister(d, Alu(op, registers[a], registers[b]));
            case InsRRL(op, d, a, imm) =>
              ExecuteIsAlu(i, View());
              ok := SetRegister(d, AluImmediate(op, registers[a], imm));
            case InsRL(op, d, imm) =>
              ExecuteIsAlu(i, View());
              ok := SetRegister(d, if op == LUI then Some(imm * 0x1_0000) else None);
            case InsRRA(op, r, b, off) => ok := ExecuteRRA(op, r, b, off);
            case InsRR(op, a, b) => ok := ExecuteRR(op, a, b);
            case InsRA(op, r, off) => ok := ExecuteRA(op, r, off);
            case InsR(op, r) => ok := ExecuteR(op, r);
            case InsA(op, target) => ok := ExecuteA(op, target);
            case InsO(op) => ok := ExecuteO(op);
          }
      }
    }

    /** The run loop, for runs that end: `n` turns are enough. */
    method Run(ghost n: nat) returns (ok: bool)
      requires Valid() && Halted(RunFor(View(), n))
      modifies Repr()
      ensures Valid()
      ensures ok ==> View() == RunFor(old(View()), n)
      ensures !ok ==> RunFor(old(View()), n).fault
    {
      hide Step, ReadWord, Decode, Execute;
      ghost var k := n;
      while pc < program.textLength && !shouldExit
        invariant Valid() && RunFor(old(View()), n) == RunFor(View(), k)
        invariant k == 0 ==> Halted(View())
        decreases k
      {
        ghost var before := View();
        ok := StepOnce();
        if !ok {
          FaultStays(before, k);
          return;
        }
        k := k - 1;
      }
      HaltedStays(View(), k);
      ok := true;
    }

    method StepOnce() returns (ok: bool)
      requires Valid() && !Halted(View())
      modifies Repr()
      ensures Valid() && ok == !Tick(old(View())).fault && (ok ==> View() == Tick(old(View())))
    {
      hide ReadWord, Decode, Execute;
      var word := program.GetWord(pc);
      match word {
        case Some(w) => ok := ExecuteInstruction(w);
        case None => ok := false;
      }
    }

    method Reset()
      requires Valid()
      modifies this, registers
      ensures Valid() && View() == ResetState(old(program.Mem()), old(hi), old(lo))
    {
      pc := 0;
      shouldExit := false;
      exitCode := 0;
      for i := 0 to 32
        invariant Valid() && forall j | 0 <= j < i :: registers[j] == 0
        invariant pc == 0 && !shouldExit && exitCode == 0 && hi == old(hi) && lo == old(lo)
        invariant program.Mem() == old(program.Mem())
      {
        registers[i] := 0;
      }
      registers[SP] := STACK_OFFSET + STACK_SIZE;
      registers[GP] := GLOBAL_OFFSET;
      var cleared: Registers := seq(32, _ => 0);
      assert registers[..] == cleared[SP := STACK_OFFSET + STACK_SIZE][GP := GLOBAL_OFFSET];
    }

    method LoadProgram(file: seq<Byte>)
      requires Valid() && |file| >= HEADER_SIZE
      modifies program
      ensures Valid()
      ensures program.Mem() == Reopened(old(program.image), file, old(program.stack[..]), old(program.global[..]))
    {
      program.Open(file);
    }
  }

  lemma RegisterOpcodes(op: Opcode)
    requires FormOf(op) == FormR
    ensures op == JR || op == MFHI || op == MFLO
  {
  }

  lemma DecodedForm(word: Word)
    requires Decode(word).Some?
    ensures var i := Decode(word).value;
      FormOf(i.op) == match i
        case InsRRR(_, _, _, _) => FormRRR
        case InsRRL(_, _, _, _) => FormRRL
        case InsRRA(_, _, _, _) => FormRRA
        case InsRR(_, _, _) => FormRR
        case InsRL(_, _, _) => FormRL
        case InsRA(_, _, _) => FormRA
        case InsR(_, _) => FormR
        case InsA(_, _) => FormA
        case InsO(_) => FormO
  {
    hide FormOf, OpcodeAt;
  }

  lemma ExecuteIsAlu(i: Instr, s: State)
    requires i.InsRRR? || i.InsRRL? || i.InsRL?
    ensures Execute(i, s) == match i
      case InsRRR(op, d, a, b) => SetRegister(s, d, Alu(op, s.regs[a], s.regs[b]))
      case InsRRL(op, d, a, imm) => SetRegister(s, d, AluImmediate(op, s.regs[a], imm))
      case InsRL(op, d, imm) => SetRegister(s, d, if op == LUI then Some(imm * 0x1_0000) else None)
      case _ => s
  {
    hide Alu, AluImmediate;
  }

  /** A fault ends the run. */
  lemma FaultStays(s: State, k: nat)
    requires k > 0 && Tick(s).fault
    ensures RunFor(s, k).fault
  {
    hide Step;
    HaltedStays(Tick(s), k - 1);
  }
}
